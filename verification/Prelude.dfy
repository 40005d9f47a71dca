/** Values and small facts shared by the models: optional values, filtered lists, sums
    over maps and finite sets of numbers. */
module Prelude {

  datatype Option<+T> = None | Some(value: T)

  function Max(a: int, b: int): int { if a < b then b else a }

  function Min(a: int, b: int): int { if a < b then a else b }

  function Iterate<T>(f: T -> T, x: T, n: nat): T { if n == 0 then x else f(Iterate(f, x, n - 1)) }

  lemma {:induction false} IterateFollows<T(!new)>(f: T -> T, p: nat -> T, n: nat)
    requires forall m: nat :: f(p(m)) == p(m + 1)
    ensures Iterate(f, p(0), n) == p(n)
    decreases n
  {
    if n > 0 {
      IterateFollows(f, p, n - 1);
      assert f(p(n - 1)) == p(n - 1 + 1);
    }
  }

  /** How often `x` stands in a list with one more element. */
  lemma {:induction false} CountLast<T>(s: seq<T>, last: T, x: T)
    ensures multiset(s + [last])[x] == multiset(s)[x] + if x == last then 1 else 0
  {
    assert multiset(s + [last]) == multiset(s) + multiset{last};
  }

  function Filter<T(!new)>(xs: seq<T>, keep: T -> bool): (r: seq<T>)
    ensures |r| <= |xs|
    decreases |xs|
  {
    if xs == [] then [] else
      Filter(xs[..|xs| - 1], keep) + if keep(xs[|xs| - 1]) then [xs[|xs| - 1]] else []
  }

  lemma {:induction false} FilterMembers<T(!new)>(xs: seq<T>, keep: T -> bool)
    ensures forall x :: x in Filter(xs, keep) <==> x in xs && keep(x)
    decreases |xs|
  {
    if xs != [] {
      FilterMembers(xs[..|xs| - 1], keep);
      assert xs == xs[..|xs| - 1] + [xs[|xs| - 1]];
    }
  }

  lemma {:induction false} FilterAppend<T(!new)>(xs: seq<T>, ys: seq<T>, keep: T -> bool)
    ensures Filter(xs + ys, keep) == Filter(xs, keep) + Filter(ys, keep)
    decreases |ys|
  {
    if ys == [] {
      assert xs + ys == xs;
    } else {
      assert (xs + ys)[..|xs + ys| - 1] == xs + ys[..|ys| - 1];
      FilterAppend(xs, ys[..|ys| - 1], keep);
    }
  }

  lemma {:induction false} FilterLast<T(!new)>(xs: seq<T>, keep: T -> bool)
    requires xs != []
    ensures keep(xs[|xs| - 1]) ==> Filter(xs, keep) == Filter(xs[..|xs| - 1], keep) + [xs[|xs| - 1]]
    ensures !keep(xs[|xs| - 1]) ==> Filter(xs, keep) == Filter(xs[..|xs| - 1], keep)
  {
  }

  lemma {:induction false} FilterAll<T(!new)>(xs: seq<T>, keep: T -> bool)
    requires forall k :: 0 <= k < |xs| ==> keep(xs[k])
    ensures Filter(xs, keep) == xs
    decreases |xs|
  {
    if xs != [] { FilterAll(xs[..|xs| - 1], keep); }
  }

  lemma {:induction false} FilterNone<T(!new)>(xs: seq<T>, keep: T -> bool)
    requires forall k :: 0 <= k < |xs| ==> !keep(xs[k])
    ensures Filter(xs, keep) == []
    decreases |xs|
  {
    if xs != [] { FilterNone(xs[..|xs| - 1], keep); }
  }

  /** The sum of the values of a map. */
  ghost function Total<K(!new)>(m: map<K, int>): int {
    if m == map[] then 0 else var k :| k in m; m[k] + Total(m - {k})
  }

  /** Any entry may be taken out of the sum, not only the one `Total` picked. */
  lemma {:induction false} TotalRemove<K(!new)>(m: map<K, int>, k: K)
    requires k in m
    ensures Total(m) == m[k] + Total(m - {k})
    decreases |m|
  {
    var j :| j in m && Total(m) == m[j] + Total(m - {j});
    if j != k {
      TotalRemove(m - {j}, k);
      TotalRemove(m - {k}, j);
      assert m - {j} - {k} == m - {k} - {j};
    }
  }

  lemma {:induction false} TotalAdd<K(!new)>(m: map<K, int>, k: K, v: int)
    requires k !in m
    ensures Total(m[k := v]) == Total(m) + v
  {
    TotalRemove(m[k := v], k);
    assert m[k := v] - {k} == m;
  }

  lemma {:induction false} TotalNonNegative<K(!new)>(m: map<K, int>)
    requires forall k :: k in m ==> m[k] >= 0
    ensures Total(m) >= 0
    decreases |m|
  {
    if m != map[] {
      var k :| k in m && Total(m) == m[k] + Total(m - {k});
      TotalNonNegative(m - {k});
    }
  }

  ghost function Restrict<K(!new), V>(m: map<K, V>, keys: set<K>): map<K, V> {
    map k | k in m && k in keys :: m[k]
  }

  lemma {:induction false} SplitRemove<K(!new)>(m: map<K, int>, keys: set<K>, k: K)
    requires k in m
    ensures var rest := m - {k};
            && rest - keys == (if k in keys then m - keys else (m - keys) - {k})
            && Restrict(rest, keys) == (if k in keys then Restrict(m, keys) - {k} else Restrict(m, keys))
  {
  }

  /** Entries outside `keys` and entries inside it make up the whole sum. */
  lemma {:induction false} TotalSplit<K(!new)>(m: map<K, int>, keys: set<K>)
    ensures Total(m) == Total(m - keys) + Total(Restrict(m, keys))
    decreases |m|
  {
    if k :| k in m {
      SplitRemove(m, keys, k);
      TotalRemove(m, k);
      TotalSplit(m - {k}, keys);
      if k in keys {
        TotalRemove(Restrict(m, keys), k);
      } else {
        TotalRemove(m - keys, k);
      }
    } else {
      assert m == map[] && m - keys == m && Restrict(m, keys) == m;
    }
  }

  // ------------------------------------------------------------ finite sets of numbers

  function Elements(s: seq<nat>): (r: set<nat>)
    ensures forall id :: id in r <==> id in s
  {
    set id | id in s
  }

  lemma {:induction false} NonEmpty(s: set<nat>)
    ensures s == {} || exists x :: x in s
  {
    if !(exists x :: x in s) { assert s == {}; }
  }

  lemma {:induction false} LeastExists(s: set<nat>)
    requires s != {}
    ensures exists least :: IsLeast(s, least)
    decreases s
  {
    NonEmpty(s);
    var x :| x in s;
    var below := set y | y in s && y < x;
    assert forall id :: id in s && id < x <==> id in below;
    if below == {} {
      assert IsLeast(s, x);
    } else {
      LeastExists(below);
      var least :| IsLeast(below, least);
      assert IsLeast(s, least);
    }
  }

  ghost predicate IsLeast(s: set<nat>, least: nat) { least in s && forall id :: id in s ==> least <= id }

  lemma {:induction false} GreatestExists(s: set<nat>)
    requires s != {}
    ensures exists greatest :: greatest in s && forall id :: id in s ==> id <= greatest
    decreases s
  {
    NonEmpty(s);
    var x :| x in s;
    var above := set y | y in s && x < y;
    if above == {} {
      assert forall id :: id in s && x < id ==> id in above;
      assert forall id :: id in s ==> id <= x;
    } else {
      GreatestExists(above);
      var greatest :| greatest in above && forall id :: id in above ==> id <= greatest;
      assert forall id :: id in s && x < id ==> id in above;
      assert forall id :: id in s ==> id <= greatest;
    }
  }

  lemma {:induction false} DistinctCount(s: seq<nat>)
    requires forall i, j :: 0 <= i < j < |s| ==> s[i] != s[j]
    ensures |Elements(s)| == |s|
    decreases |s|
  {
    if s != [] {
      var init, last := s[..|s| - 1], s[|s| - 1];
      DistinctCount(init);
      assert last !in init;
      assert Elements(s) == Elements(init) + {last};
    }
  }
}
