/** Python's order on strings and `sorted` under a given order. */
module Sorting {

  /** Code point by code point, a proper prefix first. */
  predicate Less(a: string, b: string)
    decreases |a|
  {
    b != "" && (a == "" || a[0] < b[0] || (a[0] == b[0] && Less(a[1..], b[1..])))
  }

  lemma {:induction false} LessTotal(a: string, b: string)
    ensures a == b || Less(a, b) || Less(b, a)
    ensures !Less(a, a)
    decreases |a|
  {
    if a != "" && b != "" {
      LessTotal(a[1..], b[1..]);
      assert a == [a[0]] + a[1..] && b == [b[0]] + b[1..];
    } else if a != "" {
      LessTotal(a[1..], "");
    }
  }

  lemma {:induction false} LessTransitive(a: string, b: string, c: string)
    requires Less(a, b) && Less(b, c)
    ensures Less(a, c)
    decreases |a|
  {
    if a != "" && a[0] == b[0] == c[0] { LessTransitive(a[1..], b[1..], c[1..]); }
  }

  /** The first character in which two texts differ decides, or else the length. */
  lemma {:induction false} LessAtDifference(a: string, b: string, n: nat)
    requires n <= |a| && n <= |b| && a[..n] == b[..n]
    requires n == |a| || n == |b| || a[n] != b[n]
    ensures Less(a, b) <==> n < |b| && (n == |a| || a[n] < b[n])
    decreases n
  {
    if n > 0 {
      assert a[0] == a[..n][0] == b[..n][0] == b[0];
      assert a[1..][..n - 1] == a[..n][1..] && b[1..][..n - 1] == b[..n][1..];
      LessAtDifference(a[1..], b[1..], n - 1);
    }
  }

  /** A strict order in which elements may tie: what a sort key gives. */
  ghost predicate KeyOrder<T(!new)>(before: (T, T) -> bool) {
    && (forall x :: !before(x, x))
    && (forall x, y, z :: before(x, y) && before(y, z) ==> before(x, z))
    && (forall x, y, z :: before(x, z) ==> before(x, y) || before(y, z))
  }

  function Place<T>(s: seq<T>, x: T, before: (T, T) -> bool): (q: nat)
    ensures q <= |s|
    decreases |s|
  {
    if s == [] then 0 else if before(x, s[|s| - 1]) then Place(s[..|s| - 1], x, before) else |s|
  }

  function PutAt<T>(s: seq<T>, q: nat, x: T): seq<T>
    requires q <= |s|
  {
    s[..q] + [x] + s[q..]
  }

  function Insert<T>(s: seq<T>, x: T, before: (T, T) -> bool): seq<T> { PutAt(s, Place(s, x, before), x) }

  /** `sorted`, which keeps the order of elements that tie. */
  function Sort<T>(xs: seq<T>, before: (T, T) -> bool): seq<T>
    decreases |xs|
  {
    if xs == [] then [] else Insert(Sort(xs[..|xs| - 1], before), xs[|xs| - 1], before)
  }

  ghost predicate InOrder<T>(s: seq<T>, before: (T, T) -> bool) {
    forall i, j :: 0 <= i < j < |s| ==> !before(s[j], s[i])
  }

  lemma {:induction false} NotBefore<T(!new)>(before: (T, T) -> bool, x: T, y: T, z: T)
    requires KeyOrder(before) && !before(x, y) && (!before(y, z) || y == z)
    ensures !before(x, z)
  {
  }

  lemma {:induction false} PlaceSplits<T(!new)>(s: seq<T>, x: T, before: (T, T) -> bool)
    requires KeyOrder(before) && InOrder(s, before)
    ensures var q := Place(s, x, before);
      (forall k :: 0 <= k < q ==> !before(x, s[k])) && (forall k :: q <= k < |s| ==> before(x, s[k]))
    decreases |s|
  {
    if s != [] {
      var init, last := s[..|s| - 1], s[|s| - 1];
      if before(x, last) {
        PlaceSplits(init, x, before);
      } else {
        forall k | 0 <= k < |s| ensures !before(x, s[k]) { NotBefore(before, x, last, s[k]); }
      }
    }
  }

  lemma {:induction false} SortInOrder<T(!new)>(xs: seq<T>, before: (T, T) -> bool)
    requires KeyOrder(before)
    ensures InOrder(Sort(xs, before), before)
    decreases |xs|
  {
    if xs != [] {
      SortInOrder(xs[..|xs| - 1], before);
      PlaceSplits(Sort(xs[..|xs| - 1], before), xs[|xs| - 1], before);
      var s, x := Sort(xs[..|xs| - 1], before), xs[|xs| - 1];
      forall k | Place(s, x, before) <= k < |s| ensures !before(s[k], x) { assert !before(x, x); }
    }
  }

  lemma {:induction false} InsertPermutes<T>(s: seq<T>, x: T, before: (T, T) -> bool)
    ensures multiset(Insert(s, x, before)) == multiset(s) + multiset{x}
  {
    assert s == s[..Place(s, x, before)] + s[Place(s, x, before)..];
  }

  lemma {:induction false} SortPermutes<T>(xs: seq<T>, before: (T, T) -> bool)
    ensures multiset(Sort(xs, before)) == multiset(xs)
    decreases |xs|
  {
    if xs != [] {
      var init, last := xs[..|xs| - 1], xs[|xs| - 1];
      SortPermutes(init, before);
      InsertPermutes(Sort(init, before), last, before);
      assert xs == init + [last];
    }
  }

  /** Sorting an ordered list changes nothing. */
  lemma {:induction false} SortOfOrdered<T(!new)>(s: seq<T>, before: (T, T) -> bool)
    requires InOrder(s, before)
    ensures Sort(s, before) == s
    decreases |s|
  {
    if s != [] {
      var init, last := s[..|s| - 1], s[|s| - 1];
      SortOfOrdered(init, before);
      assert Place(init, last, before) == |init|;
      assert s == init + [last];
    }
  }

  /** No two different elements tie. */
  ghost predicate Comparable<T>(s: seq<T>, before: (T, T) -> bool) {
    forall i, j :: 0 <= i < |s| && 0 <= j < |s| && s[i] != s[j] ==> before(s[i], s[j]) || before(s[j], s[i])
  }

  lemma {:induction false} LastIsGreatest<T(!new)>(s: seq<T>, t: seq<T>, before: (T, T) -> bool)
    requires KeyOrder(before) && InOrder(s, before) && InOrder(t, before) && Comparable(s, before)
    requires multiset(s) == multiset(t) && s != [] && t != []
    ensures s[|s| - 1] == t[|t| - 1]
  {
    var x, y := s[|s| - 1], t[|t| - 1];
    assert x in multiset(t) && y in multiset(s);
    var i :| 0 <= i < |t| && t[i] == x;
    var j :| 0 <= j < |s| && s[j] == y;
    assert !before(x, y);
    assert !before(y, x);
  }

  lemma {:induction false} InitMultiset<T>(s: seq<T>)
    requires s != []
    ensures multiset(s[..|s| - 1]) == multiset(s) - multiset{s[|s| - 1]}
  {
    assert s == s[..|s| - 1] + [s[|s| - 1]];
  }

  lemma {:induction false} SameLength<T>(s: seq<T>, t: seq<T>)
    requires multiset(s) == multiset(t)
    ensures |s| == |t|
  {
    assert |multiset(s)| == |s| && |multiset(t)| == |t|;
  }

  lemma {:induction false} InitInOrder<T(!new)>(s: seq<T>, before: (T, T) -> bool)
    requires s != [] && InOrder(s, before)
    ensures InOrder(s[..|s| - 1], before)
    ensures Comparable(s, before) ==> Comparable(s[..|s| - 1], before)
  {
  }

  lemma {:induction false} SameInits<T(!new)>(s: seq<T>, t: seq<T>)
    requires s != [] && t != [] && multiset(s) == multiset(t) && s[|s| - 1] == t[|t| - 1]
    ensures multiset(s[..|s| - 1]) == multiset(t[..|t| - 1])
    ensures s[..|s| - 1] == t[..|t| - 1] ==> s == t
  {
    InitMultiset(s);
    InitMultiset(t);
    assert s == s[..|s| - 1] + [s[|s| - 1]] && t == t[..|t| - 1] + [t[|t| - 1]];
  }

  /** Two ordered lists of the same elements are the same list. */
  lemma {:induction false} OrderedUnique<T(!new)>(s: seq<T>, t: seq<T>, before: (T, T) -> bool)
    requires KeyOrder(before) && InOrder(s, before) && InOrder(t, before) && Comparable(s, before)
    requires multiset(s) == multiset(t)
    ensures s == t
    decreases |s|
  {
    SameLength(s, t);
    if s != [] {
      LastIsGreatest(s, t, before);
      SameInits(s, t);
      InitInOrder(s, before);
      InitInOrder(t, before);
      OrderedUnique(s[..|s| - 1], t[..|t| - 1], before);
    }
  }

  /** Sorting distinct keys gives one result for every order of the input. */
  lemma {:induction false} SortIgnoresOrder<T(!new)>(xs: seq<T>, ys: seq<T>, before: (T, T) -> bool)
    requires KeyOrder(before) && multiset(xs) == multiset(ys) && Comparable(Sort(xs, before), before)
    ensures Sort(xs, before) == Sort(ys, before)
  {
    SortInOrder(xs, before);
    SortInOrder(ys, before);
    SortPermutes(xs, before);
    SortPermutes(ys, before);
    OrderedUnique(Sort(xs, before), Sort(ys, before), before);
  }

  /** The order that a string key gives. */
  function ByKey<T>(key: T -> string): (T, T) -> bool { (x, y) => Less(key(x), key(y)) }

  lemma {:induction false} ByKeyIsOrder<T(!new)>(key: T -> string)
    ensures KeyOrder(ByKey(key))
  {
    var before := ByKey(key);
    forall x ensures !before(x, x) { LessTotal(key(x), key(x)); }
    forall x, y, z | before(x, y) && before(y, z) ensures before(x, z) { LessTransitive(key(x), key(y), key(z)); }
    forall x, y, z | before(x, z) ensures before(x, y) || before(y, z) {
      LessTotal(key(x), key(y));
      LessTotal(key(y), key(z));
      if Less(key(y), key(x)) && !Less(key(y), key(z)) { LessTransitive(key(y), key(x), key(z)); }
    }
  }

  predicate DistinctKeys<T>(s: seq<T>, key: T -> string) {
    forall i, j :: 0 <= i < j < |s| ==> key(s[i]) != key(s[j])
  }

  lemma {:induction false} DistinctComparable<T(!new)>(s: seq<T>, key: T -> string)
    requires DistinctKeys(s, key)
    ensures Comparable(s, ByKey(key))
  {
    forall i, j | 0 <= i < |s| && 0 <= j < |s| && s[i] != s[j]
      ensures ByKey(key)(s[i], s[j]) || ByKey(key)(s[j], s[i])
    {
      LessTotal(key(s[i]), key(s[j]));
      assert key(s[i]) != key(s[j]);
    }
  }

  /** For either order of the input: the same sorted list, or duplicate keys in both. */
  lemma {:induction false} SortByKeyIsCanonical<T(!new)>(xs: seq<T>, ys: seq<T>, key: T -> string)
    requires multiset(xs) == multiset(ys)
    ensures var s, t := Sort(xs, ByKey(key)), Sort(ys, ByKey(key));
      s == t || (!DistinctKeys(s, key) && !DistinctKeys(t, key))
  {
    ByKeyIsOrder(key);
    if DistinctKeys(Sort(xs, ByKey(key)), key) {
      DistinctComparable(Sort(xs, ByKey(key)), key);
      SortIgnoresOrder(xs, ys, ByKey(key));
    } else if DistinctKeys(Sort(ys, ByKey(key)), key) {
      DistinctComparable(Sort(ys, ByKey(key)), key);
      SortIgnoresOrder(ys, xs, ByKey(key));
    }
  }

  /** `sorted` on strings: its result ignores the order it was given. */
  function SortStrings(texts: seq<string>): seq<string> { Sort(texts, ByKey((text: string) => text)) }

  lemma {:induction false} SortStringsCanonical(a: seq<string>, b: seq<string>)
    ensures multiset(a) == multiset(b) ==> SortStrings(a) == SortStrings(b)
    ensures SortStrings(SortStrings(a)) == SortStrings(a)
  {
    var key := (text: string) => text;
    ByKeyIsOrder(key);
    SortInOrder(a, ByKey(key));
    SortOfOrdered(SortStrings(a), ByKey(key));
    var s := SortStrings(a);
    forall i, j | 0 <= i < |s| && 0 <= j < |s| && s[i] != s[j]
      ensures ByKey(key)(s[i], s[j]) || ByKey(key)(s[j], s[i])
    {
      LessTotal(s[i], s[j]);
    }
    if multiset(a) == multiset(b) { SortIgnoresOrder(a, b, ByKey(key)); }
  }
}
