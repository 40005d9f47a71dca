/** The candidate order of mixapi/routing.py: by score, then by rendezvous rank, ties in
    catalogue order. */
module RouteOrder {
  import opened Prelude
  import opened Models
  import opened Sorting

  /** A candidate with its score and its rank under one selection seed. */
  datatype Item = Item(candidate: ProviderModel, score: real, rank: real)

  predicate Leq(x: Item, y: Item) { x.score < y.score || (x.score == y.score && x.rank <= y.rank) }

  function Earlier(): (Item, Item) -> bool { (x: Item, y: Item) => !Leq(y, x) }

  ghost predicate Sorted(s: seq<Item>) { InOrder(s, Earlier()) }

  /** Where the sort puts `x` after `s`: behind everything that is not greater. */
  function Spot(s: seq<Item>, x: Item): (q: nat)
    ensures q <= |s|
  {
    Place(s, x, Earlier())
  }

  function Add(s: seq<Item>, x: Item): seq<Item> { Insert(s, x, Earlier()) }

  /** The stable sort by score and rank. */
  function Order(items: seq<Item>): seq<Item> { Sort(items, Earlier()) }

  lemma {:induction false} EarlierIsOrder()
    ensures KeyOrder(Earlier())
  {
  }

  lemma {:induction false} SpotSplits(s: seq<Item>, x: Item)
    requires Sorted(s)
    ensures forall k :: 0 <= k < Spot(s, x) ==> Leq(s[k], x)
    ensures forall k :: Spot(s, x) <= k < |s| ==> !Leq(s[k], x)
  {
    EarlierIsOrder();
    PlaceSplits(s, x, Earlier());
    assert forall k :: 0 <= k < |s| ==> (Leq(s[k], x) <==> !Earlier()(x, s[k]));
  }

  lemma {:induction false} SpotIsUnique(s: seq<Item>, x: Item, q: nat)
    requires Sorted(s) && q <= |s|
    requires q > 0 ==> Leq(s[q - 1], x)
    requires q < |s| ==> !Leq(s[q], x)
    ensures Spot(s, x) == q
  {
    SpotSplits(s, x);
  }

  lemma {:induction false} OrderSorted(items: seq<Item>)
    ensures Sorted(Order(items)) && |Order(items)| == |items|
  {
    EarlierIsOrder();
    SortInOrder(items, Earlier());
    SortPermutes(items, Earlier());
    SameLength(Order(items), items);
  }

  lemma {:induction false} OrderPermutes(items: seq<Item>)
    ensures multiset(Order(items)) == multiset(items)
  {
    SortPermutes(items, Earlier());
  }

  // -------------------------------------------------- removing candidates keeps the order

  lemma {:induction false} FilterSorted(s: seq<Item>, keep: Item -> bool)
    requires Sorted(s)
    ensures Sorted(Filter(s, keep))
    decreases |s|
  {
    if s != [] {
      var init := s[..|s| - 1];
      FilterSorted(init, keep);
      FilterMembers(init, keep);
      forall k | 0 <= k < |Filter(init, keep)| ensures Leq(Filter(init, keep)[k], s[|s| - 1]) {
        assert Filter(init, keep)[k] in init;
      }
    }
  }

  lemma {:induction false} FilterPut(s: seq<Item>, q: nat, x: Item, keep: Item -> bool)
    requires q <= |s|
    ensures Filter(s, keep) == Filter(s[..q], keep) + Filter(s[q..], keep)
    ensures Filter(PutAt(s, q, x), keep) == Filter(s[..q], keep) + (if keep(x) then [x] else []) + Filter(s[q..], keep)
  {
    assert s == s[..q] + s[q..];
    FilterAppend(s[..q], s[q..], keep);
    FilterAppend(s[..q] + [x], s[q..], keep);
    FilterAppend(s[..q], [x], keep);
    FilterLast([x], keep);
  }

  lemma {:induction false} FilterAddKept(s: seq<Item>, x: Item, keep: Item -> bool)
    requires Sorted(s) && keep(x)
    ensures Filter(Add(s, x), keep) == Add(Filter(s, keep), x)
  {
    var q := Spot(s, x);
    SpotSplits(s, x);
    FilterSorted(s, keep);
    FilterPut(s, q, x, keep);
    var before, after := Filter(s[..q], keep), Filter(s[q..], keep);
    FilterMembers(s[..q], keep);
    FilterMembers(s[q..], keep);
    assert before != [] ==> before[|before| - 1] in before;
    assert after != [] ==> after[0] in after;
    SpotIsUnique(before + after, x, |before|);
  }

  lemma {:induction false} FilterAddDropped(s: seq<Item>, x: Item, keep: Item -> bool)
    requires !keep(x)
    ensures Filter(Add(s, x), keep) == Filter(s, keep)
  {
    FilterPut(s, Spot(s, x), x, keep);
  }

  /** Removing any candidates leaves the others in the same relative order. */
  lemma {:induction false} RemovingKeepsOrder(items: seq<Item>, keep: Item -> bool)
    ensures Order(Filter(items, keep)) == Filter(Order(items), keep)
    decreases |items|
  {
    if items != [] {
      var init, last := items[..|items| - 1], items[|items| - 1];
      RemovingKeepsOrder(init, keep);
      OrderSorted(init);
      if keep(last) {
        FilterAddKept(Order(init), last, keep);
        var kept := Filter(init, keep);
        assert (kept + [last])[..|kept|] == kept;
      } else {
        FilterAddDropped(Order(init), last, keep);
        assert Filter(items, keep) == Filter(init, keep);
      }
    }
  }

  // ------------------------------------------------------------- changing one candidate

  function NotAfter(x: Item): Item -> bool { (y: Item) => Leq(y, x) }

  function Before(x: Item): Item -> bool { (y: Item) => !Leq(x, y) }

  /** How many of `a`, listed before `x`, and of `b`, listed after it, a stable sort puts
      in front of `x`. */
  function Ahead(a: seq<Item>, b: seq<Item>, x: Item): nat {
    |Filter(a, NotAfter(x))| + |Filter(b, Before(x))|
  }

  ghost predicate IsAt(rest: seq<Item>, full: seq<Item>, at: nat, x: Item) {
    at <= |rest| && full == PutAt(rest, at, x)
  }

  ghost predicate Slot(a: seq<Item>, x: Item, b: seq<Item>) {
    IsAt(Order(a + b), Order(a + [x] + b), Ahead(a, b, x), x)
  }

  lemma {:induction false} CountBelow(s: seq<Item>, x: Item)
    requires Sorted(s)
    ensures |Filter(s, NotAfter(x))| == Spot(s, x)
    decreases |s|
  {
    if s != [] {
      if Leq(s[|s| - 1], x) {
        FilterAll(s, NotAfter(x));
      } else {
        CountBelow(s[..|s| - 1], x);
      }
    }
  }

  lemma {:induction false} AheadIsSpot(a: seq<Item>, x: Item)
    ensures Ahead(a, [], x) == Spot(Order(a), x)
  {
    OrderSorted(a);
    CountBelow(Order(a), x);
    RemovingKeepsOrder(a, NotAfter(x));
    OrderSorted(Filter(a, NotAfter(x)));
  }

  lemma {:induction false} SlotLast(a: seq<Item>, x: Item)
    ensures Slot(a, x, [])
  {
    AheadIsSpot(a, x);
    assert a + [] == a && a + [x] + [] == a + [x];
    assert (a + [x])[..|a|] == a;
    assert Order(a + [x]) == Add(Order(a), x);
  }

  lemma {:induction false} PutTwice(rest: seq<Item>, at: nat, x: Item, q: nat, z: Item)
    requires at <= |rest| && q <= |rest|
    ensures q >= at ==> PutAt(PutAt(rest, at, x), q + 1, z) == PutAt(PutAt(rest, q, z), at, x)
    ensures q <= at ==> PutAt(PutAt(rest, at, x), q, z) == PutAt(PutAt(rest, q, z), at + 1, x)
  {
  }

  lemma {:induction false} PutSplits(rest: seq<Item>, at: nat, x: Item)
    requires at <= |rest| && Sorted(PutAt(rest, at, x))
    ensures forall k :: 0 <= k < at ==> PutAt(rest, at, x)[k] == rest[k] && Leq(rest[k], x)
    ensures PutAt(rest, at, x)[at] == x
    ensures forall k :: at <= k < |rest| ==> PutAt(rest, at, x)[k + 1] == rest[k] && Leq(x, rest[k])
  {
    var full := PutAt(rest, at, x);
    assert full[at] == x;
    forall k | at <= k < |rest| ensures full[k + 1] == rest[k] && Leq(x, rest[k]) {
      assert Leq(full[at], full[k + 1]);
    }
  }

  lemma {:induction false} SpotBeside(rest: seq<Item>, at: nat, x: Item, z: Item)
    requires at <= |rest| && Sorted(PutAt(rest, at, x)) && Sorted(rest)
    ensures Leq(x, z) ==> Spot(rest, z) >= at && Spot(PutAt(rest, at, x), z) == Spot(rest, z) + 1
    ensures !Leq(x, z) ==> Spot(rest, z) <= at && Spot(PutAt(rest, at, x), z) == Spot(rest, z)
  {
    var q := Spot(rest, z);
    SpotSplits(rest, z);
    PutSplits(rest, at, x);
    if Leq(x, z) {
      assert at > 0 ==> Leq(rest[at - 1], z);
      SpotIsUnique(PutAt(rest, at, x), z, q + 1);
    } else {
      assert at < |rest| ==> !Leq(rest[at], z);
      SpotIsUnique(PutAt(rest, at, x), z, q);
    }
  }

  /** Inserting `z` into a sorted list and into the same list with `x` added at `at`. */
  lemma {:induction false} AddBeside(rest: seq<Item>, at: nat, x: Item, z: Item)
    requires at <= |rest| && Sorted(PutAt(rest, at, x)) && Sorted(rest)
    ensures Add(PutAt(rest, at, x), z) == PutAt(Add(rest, z), if Leq(x, z) then at else at + 1, x)
  {
    SpotBeside(rest, at, x, z);
    PutTwice(rest, at, x, Spot(rest, z), z);
  }

  lemma {:induction false} OrderSnoc(items: seq<Item>, z: Item)
    ensures Order(items + [z]) == Add(Order(items), z)
  {
    assert (items + [z])[..|items|] == items;
  }

  lemma {:induction false} AheadSnoc(a: seq<Item>, b: seq<Item>, z: Item, x: Item)
    ensures Ahead(a, b + [z], x) == Ahead(a, b, x) + if Leq(x, z) then 0 else 1
  {
    FilterLast(b + [z], Before(x));
    assert (b + [z])[..|b|] == b;
  }

  lemma {:induction false} AddAt(rest: seq<Item>, full: seq<Item>, at: nat, x: Item, z: Item)
    requires IsAt(rest, full, at, x) && Sorted(rest) && Sorted(full)
    ensures IsAt(Add(rest, z), Add(full, z), if Leq(x, z) then at else at + 1, x)
  {
    AddBeside(rest, at, x, z);
  }

  lemma {:induction false} IsAtNext(without: seq<Item>, with: seq<Item>, at: nat, x: Item, z: Item)
    requires IsAt(Order(without), Order(with), at, x)
    ensures IsAt(Order(without + [z]), Order(with + [z]), if Leq(x, z) then at else at + 1, x)
  {
    OrderSorted(without);
    OrderSorted(with);
    AddAt(Order(without), Order(with), at, x, z);
    OrderSnoc(without, z);
    OrderSnoc(with, z);
  }

  lemma {:induction false} Regroup(a: seq<Item>, b: seq<Item>, z: Item)
    ensures a + (b + [z]) == a + b + [z]
  {
  }

  lemma {:induction false} SlotNext(a: seq<Item>, x: Item, b: seq<Item>, z: Item)
    requires Slot(a, x, b)
    ensures Slot(a, x, b + [z])
  {
    IsAtNext(a + b, a + [x] + b, Ahead(a, b, x), x, z);
    AheadSnoc(a, b, z, x);
    Regroup(a, b, z);
    Regroup(a + [x], b, z);
  }

  lemma {:induction false} SlotHolds(a: seq<Item>, x: Item, b: seq<Item>)
    ensures Slot(a, x, b)
    decreases |b|
  {
    if b == [] {
      SlotLast(a, x);
    } else {
      var init, z := b[..|b| - 1], b[|b| - 1];
      SlotHolds(a, x, init);
      SlotNext(a, x, init, z);
      assert b == init + [z];
    }
  }

  lemma {:induction false} FewerAhead(s: seq<Item>, x: Item, y: Item)
    requires Leq(y, x)
    ensures |Filter(s, NotAfter(y))| <= |Filter(s, NotAfter(x))|
    ensures |Filter(s, Before(y))| <= |Filter(s, Before(x))|
    decreases |s|
  {
    if s != [] { FewerAhead(s[..|s| - 1], x, y); }
  }

  /** Replacing a candidate by one that compares no later moves it from place `i` to a
      place `j <= i` and leaves the order of all the others as it was. */
  lemma {:induction false} ReplacingMovesOnlyIt(a: seq<Item>, x: Item, y: Item, b: seq<Item>) returns (i: nat, j: nat)
    requires Leq(y, x)
    ensures j <= i <= |Order(a + b)|
    ensures Order(a + [x] + b) == PutAt(Order(a + b), i, x)
    ensures Order(a + [y] + b) == PutAt(Order(a + b), j, y)
  {
    SlotHolds(a, x, b);
    SlotHolds(a, y, b);
    FewerAhead(a, x, y);
    FewerAhead(b, x, y);
    i, j := Ahead(a, b, x), Ahead(a, b, y);
  }

  // ---------------------------------------------------------------- order through buckets

  function With(score: real): Item -> bool { (x: Item) => x.score == score }

  function Without(score: real): Item -> bool { (x: Item) => x.score != score }

  /** The buckets of the given scores, each sorted by rank, one after the other. */
  function Buckets(items: seq<Item>, scores: seq<real>): seq<Item>
    decreases |scores|
  {
    if scores == [] then [] else
      var score := scores[|scores| - 1];
      Buckets(items, scores[..|scores| - 1]) + Order(Filter(items, With(score)))
  }

  ghost predicate Ascending(scores: seq<real>) { forall i, j :: 0 <= i < j < |scores| ==> scores[i] < scores[j] }

  function In(scores: seq<real>): Item -> bool { (x: Item) => x.score in scores }

  lemma {:induction false} FilterIn(items: seq<Item>, init: seq<real>, score: real)
    requires score !in init
    ensures Filter(Filter(items, In(init + [score])), Without(score)) == Filter(items, In(init))
    ensures Filter(Filter(items, In(init + [score])), With(score)) == Filter(items, With(score))
    decreases |items|
  {
    if items != [] {
      var rest, last := items[..|items| - 1], items[|items| - 1];
      FilterIn(rest, init, score);
      FilterLast(items, In(init + [score]));
      if last.score in init + [score] {
        FilterLast(Filter(items, In(init + [score])), With(score));
        FilterLast(Filter(items, In(init + [score])), Without(score));
      }
    }
  }

  lemma {:induction false} NoneHighest(s: seq<Item>, score: real)
    requires Sorted(s) && s != [] && s[|s| - 1].score < score
    ensures Filter(s, Without(score)) == s && Filter(s, With(score)) == []
  {
    forall k | 0 <= k < |s| ensures Without(score)(s[k]) { assert k < |s| - 1 ==> Leq(s[k], s[|s| - 1]); }
    FilterAll(s, Without(score));
    FilterNone(s, With(score));
  }

  /** A sorted list ends with its highest score. */
  lemma {:induction false} SplitHighest(s: seq<Item>, score: real)
    requires Sorted(s) && forall k :: 0 <= k < |s| ==> s[k].score <= score
    ensures s == Filter(s, Without(score)) + Filter(s, With(score))
    decreases |s|
  {
    if s != [] && s[|s| - 1].score < score {
      NoneHighest(s, score);
    } else if s != [] {
      SplitHighest(s[..|s| - 1], score);
      FilterLast(s, With(score));
      FilterLast(s, Without(score));
      assert s == s[..|s| - 1] + [s[|s| - 1]];
    }
  }

  lemma {:induction false} ScoresAfterOrder(items: seq<Item>, score: real)
    requires forall x :: x in items ==> x.score <= score
    ensures forall k :: 0 <= k < |Order(items)| ==> Order(items)[k].score <= score
  {
    OrderPermutes(items);
    forall k | 0 <= k < |Order(items)| ensures Order(items)[k].score <= score {
      assert Order(items)[k] in multiset(Order(items));
      assert Order(items)[k] in items;
    }
  }

  /** Sorting bucket by bucket, in ascending score, is the stable sort by score and rank. */
  lemma {:induction false} BucketsAreOrder(items: seq<Item>, scores: seq<real>)
    requires Ascending(scores)
    ensures Buckets(items, scores) == Order(Filter(items, In(scores)))
    decreases |scores|
  {
    if scores == [] {
      FilterNone(items, In(scores));
    } else {
      var init, score := scores[..|scores| - 1], scores[|scores| - 1];
      assert scores == init + [score];
      var present := Filter(items, In(scores));
      BucketsAreOrder(items, init);
      FilterIn(items, init, score);
      RemovingKeepsOrder(present, Without(score));
      RemovingKeepsOrder(present, With(score));
      OrderSorted(present);
      FilterMembers(items, In(scores));
      forall x | x in present ensures x.score <= score { assert x.score in scores; }
      ScoresAfterOrder(present, score);
      SplitHighest(Order(present), score);
    }
  }
}
