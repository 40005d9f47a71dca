/** `plan_route` of mixapi/routing.py: which candidates are eligible, why the others are
    not, and in which order the eligible ones are tried. */
module Routing {
  import opened Prelude
  import opened Models
  import opened RouteOrder
  import opened Sorting
  import RequestCost

  /** What a request demands of a candidate; `""` stands for no pin. */
  datatype Needs = Needs(
    providerPin: string, connectionPin: string, inputModalities: set<string>, outputModality: string,
    strictSchema: bool, tools: bool, embeddings: bool)

  datatype Objective = Balanced | LowestCost | LowestLatency | HighestReliability

  /** `draw` is minus the logarithm of the digest of a text, scaled into the unit interval. */
  datatype Choice = Choice(needs: Needs, objective: Objective, seed: string, draw: string -> real)

  datatype Rejected = Rejected(candidate: ProviderModel, reason: string)

  datatype Decision =
    | Unsupported(code: string)
    | Decision(candidates: seq<ProviderModel>, rejected: seq<Rejected>, score: real)

  /** `_rejection_reason`. */
  function Rejection(c: ProviderModel, n: Needs): Option<string> {
    if c.status != "active" then Some("model_disabled")
    else if n.connectionPin != "" && c.connection != n.connectionPin then Some("connection_not_pinned")
    else if && n.providerPin != "" && n.providerPin != c.provider
            && n.providerPin != c.connection && n.providerPin != c.protocol
      then Some("provider_not_pinned")
    else if n.embeddings && !c.embeddings then Some("embeddings_not_supported")
    else if n.outputModality !in c.outputModalities then Some("missing_output_modality")
    else if exists m :: m in n.inputModalities && m !in c.inputModalities then Some("missing_input_modality")
    else if n.strictSchema && !c.schemaSupport.StrictJsonSchema? then Some("strict_schema_not_supported")
    else if n.tools && "function" !in c.toolModes then Some("tools_not_supported")
    else None
  }

  /** `_score_candidate`. */
  function Score(c: ProviderModel, objective: Objective): real {
    match objective
    case LowestCost => c.inputPrice + c.outputPrice
    case LowestLatency => c.latencyMs
    case HighestReliability => -c.reliability
    case Balanced => c.priority as real
  }

  /** `_rendezvous_rank`. */
  function Rank(c: ProviderModel, seed: string, draw: string -> real): real {
    var identity := if c.connection != "" then c.connection else c.id;
    draw(seed + ":" + identity + ":" + c.id) / Max(c.weight, 1) as real
  }

  function Eligible(choice: Choice): ProviderModel -> bool {
    (c: ProviderModel) => Rejection(c, choice.needs).None?
  }

  function ItemOf(choice: Choice, c: ProviderModel): Item {
    Item(c, Score(c, choice.objective), Rank(c, choice.seed, choice.draw))
  }

  function Items(choice: Choice, candidates: seq<ProviderModel>): seq<Item>
    decreases |candidates|
  {
    if candidates == [] then [] else
      var last := candidates[|candidates| - 1];
      Items(choice, candidates[..|candidates| - 1]) + if Eligible(choice)(last) then [ItemOf(choice, last)] else []
  }

  function Rejections(choice: Choice, candidates: seq<ProviderModel>): seq<Rejected>
    decreases |candidates|
  {
    if candidates == [] then [] else
      var last := candidates[|candidates| - 1];
      var rejection := Rejection(last, choice.needs);
      Rejections(choice, candidates[..|candidates| - 1])
      + if rejection.Some? then [Rejected(last, rejection.value)] else []
  }

  predicate IsPin(reason: string) { reason == "provider_not_pinned" || reason == "connection_not_pinned" }

  function FirstOther(rejected: seq<Rejected>, i: nat): (r: nat)
    requires i <= |rejected|
    ensures i <= r <= |rejected| && forall k :: i <= k < r ==> IsPin(rejected[k].reason)
    ensures r < |rejected| ==> !IsPin(rejected[r].reason)
    decreases |rejected| - i
  {
    if i == |rejected| || !IsPin(rejected[i].reason) then i else FirstOther(rejected, i + 1)
  }

  /** `_best_rejection_code`: the first reason that is not a pin, else the first. */
  function BestRejectionCode(rejected: seq<Rejected>): string {
    var i := FirstOther(rejected, 0);
    if i < |rejected| then rejected[i].reason
    else if rejected != [] then rejected[0].reason else "no_eligible_provider"
  }

  function Candidates(items: seq<Item>): seq<ProviderModel> {
    seq(|items|, k requires 0 <= k < |items| => items[k].candidate)
  }

  function Route(choice: Choice, candidates: seq<ProviderModel>): Decision {
    var ordered := Order(Items(choice, candidates));
    var rejected := Rejections(choice, candidates);
    if ordered == [] then Unsupported(BestRejectionCode(rejected))
    else Decision(Candidates(ordered), rejected, ordered[0].score)
  }

  // ----------------------------------------------------------------- the loops of the code

  function InsertScore(scores: seq<real>, score: real): (r: seq<real>)
    requires Ascending(scores) && score !in scores
    ensures Ascending(r) && forall s :: s in r <==> s in scores || s == score
    decreases |scores|
  {
    if scores == [] || scores[|scores| - 1] < score then scores + [score] else
      var init, last := scores[..|scores| - 1], scores[|scores| - 1];
      assert scores == init + [last];
      var inserted := InsertScore(init, score);
      assert forall k :: 0 <= k < |inserted| ==> inserted[k] in inserted;
      assert forall k :: 0 <= k < |init| ==> init[k] < last;
      inserted + [last]
  }

  /** `sorted` of distinct dictionary keys. */
  function SortScores(keys: seq<real>): (r: seq<real>)
    requires forall i, j :: 0 <= i < j < |keys| ==> keys[i] != keys[j]
    ensures Ascending(r) && forall s :: s in r <==> s in keys
    decreases |keys|
  {
    if keys == [] then [] else
      var init, last := keys[..|keys| - 1], keys[|keys| - 1];
      assert keys == init + [last];
      InsertScore(SortScores(init), last)
  }

  /** What `setdefault` and `append` built from the items: `keys` is the insertion order. */
  ghost predicate Bucketed(buckets: map<real, seq<Item>>, keys: seq<real>, items: seq<Item>) {
    && (forall k, l :: 0 <= k < l < |keys| ==> keys[k] != keys[l])
    && (forall s :: s in buckets <==> s in keys)
    && (forall s :: s in buckets ==> buckets[s] == Filter(items, With(s)))
    && (forall k :: 0 <= k < |items| ==> items[k].score in buckets)
  }

  lemma {:induction false} NewScore(buckets: map<real, seq<Item>>, keys: seq<real>, items: seq<Item>, score: real)
    requires Bucketed(buckets, keys, items) && score !in buckets
    ensures Bucketed(buckets[score := []], keys + [score], items)
  {
    FilterNone(items, With(score));
  }

  lemma {:induction false} BucketAppend(buckets: map<real, seq<Item>>, keys: seq<real>, items: seq<Item>, x: Item)
    requires Bucketed(buckets, keys, items) && x.score in buckets
    ensures Bucketed(buckets[x.score := buckets[x.score] + [x]], keys, items + [x])
  {
    assert (items + [x])[..|items|] == items;
    forall s | s in buckets
      ensures Filter(items + [x], With(s)) == if s == x.score then buckets[s] + [x] else buckets[s]
    {
      FilterLast(items + [x], With(s));
    }
  }

  /** The first loop of `_ordered_candidates`. */
  method FillBuckets(eligible: seq<Item>) returns (buckets: map<real, seq<Item>>, keys: seq<real>)
    ensures Bucketed(buckets, keys, eligible)
  {
    buckets, keys := map[], [];
    for i := 0 to |eligible|
      invariant Bucketed(buckets, keys, eligible[..i])
    {
      var item := eligible[i];
      if item.score !in buckets {
        NewScore(buckets, keys, eligible[..i], item.score);
        buckets, keys := buckets[item.score := []], keys + [item.score];
      }
      BucketAppend(buckets, keys, eligible[..i], item);
      assert eligible[..i + 1] == eligible[..i] + [item];
      buckets := buckets[item.score := buckets[item.score] + [item]];
    }
    assert eligible[..|eligible|] == eligible;
  }

  /** `_ordered_candidates`: within one bucket scores are equal, so `Order` sorts by rank. */
  method OrderedCandidates(eligible: seq<Item>) returns (ordered: seq<Item>)
    ensures ordered == Order(eligible)
  {
    var buckets, keys := FillBuckets(eligible);
    var scores := SortScores(keys);
    ordered := [];
    for i := 0 to |scores|
      invariant ordered == Buckets(eligible, scores[..i])
    {
      assert scores[..i + 1][..i] == scores[..i];
      assert scores[i] in scores;
      ordered := ordered + Order(buckets[scores[i]]);
    }
    assert scores[..|scores|] == scores;
    BucketsAreOrder(eligible, scores);
    FilterAll(eligible, In(scores));
  }

  method PlanRoute(choice: Choice, candidates: seq<ProviderModel>) returns (decision: Decision)
    ensures decision == Route(choice, candidates)
  {
    var eligible: seq<Item>, rejected: seq<Rejected> := [], [];
    for i := 0 to |candidates|
      invariant eligible == Items(choice, candidates[..i])
      invariant rejected == Rejections(choice, candidates[..i])
    {
      var candidate := candidates[i];
      assert candidates[..i + 1][..i] == candidates[..i];
      var rejection := Rejection(candidate, choice.needs);
      if rejection.Some? {
        rejected := rejected + [Rejected(candidate, rejection.value)];
        continue;
      }
      eligible := eligible + [ItemOf(choice, candidate)];
    }
    assert candidates[..|candidates|] == candidates;
    var ordered := OrderedCandidates(eligible);
    OrderSorted(eligible);
    if eligible == [] { return Unsupported(BestRejectionCode(rejected)); }
    return Decision(Candidates(ordered), rejected, ordered[0].score);
  }

  // --------------------------------------------------------------------------- properties

  lemma {:induction false} ItemsAre(choice: Choice, candidates: seq<ProviderModel>)
    ensures forall x :: x in Items(choice, candidates) ==>
      x.candidate in candidates && Eligible(choice)(x.candidate) && x == ItemOf(choice, x.candidate)
    ensures Candidates(Items(choice, candidates)) == Filter(candidates, Eligible(choice))
    decreases |candidates|
  {
    if candidates != [] { ItemsAre(choice, candidates[..|candidates| - 1]); }
  }

  lemma {:induction false} PartitionItems(choice: Choice, candidates: seq<ProviderModel>)
    ensures |Items(choice, candidates)| + |Rejections(choice, candidates)| == |candidates|
    ensures multiset(Candidates(Items(choice, candidates))) + multiset(RejectedModels(Rejections(choice, candidates)))
         == multiset(candidates)
    decreases |candidates|
  {
    if candidates != [] {
      var init, last := candidates[..|candidates| - 1], candidates[|candidates| - 1];
      PartitionItems(choice, init);
      assert candidates == init + [last];
      var items, rejections := Items(choice, init), Rejections(choice, init);
      assert Candidates(items + [ItemOf(choice, last)]) == Candidates(items) + [last];
      if Eligible(choice)(last) {
        assert Rejections(choice, candidates) == rejections;
      } else {
        assert Items(choice, candidates) == items;
        assert RejectedModels(Rejections(choice, candidates)) == RejectedModels(rejections) + [last];
      }
    }
  }

  function RejectedModels(rejected: seq<Rejected>): seq<ProviderModel> {
    seq(|rejected|, k requires 0 <= k < |rejected| => rejected[k].candidate)
  }

  lemma {:induction false} CandidatesPut(s: seq<Item>, q: nat, x: Item)
    requires q <= |s|
    ensures Candidates(PutAt(s, q, x)) == Candidates(s)[..q] + [x.candidate] + Candidates(s)[q..]
  {
  }

  lemma {:induction false} OrderKeepsCandidates(items: seq<Item>)
    ensures multiset(Candidates(Order(items))) == multiset(Candidates(items))
    decreases |items|
  {
    if items != [] {
      var init, last := items[..|items| - 1], items[|items| - 1];
      OrderKeepsCandidates(init);
      var ordered := Order(init);
      var q := Spot(ordered, last);
      CandidatesPut(ordered, q, last);
      var names := Candidates(ordered);
      assert names == names[..q] + names[q..];
      assert Candidates(items) == Candidates(init) + [last.candidate];
    }
  }

  lemma {:induction false} OrderedItems(choice: Choice, candidates: seq<ProviderModel>)
    ensures forall k :: 0 <= k < |Order(Items(choice, candidates))| ==>
      var x := Order(Items(choice, candidates))[k]; x == ItemOf(choice, x.candidate) && Eligible(choice)(x.candidate)
  {
    var items := Items(choice, candidates);
    OrderPermutes(items);
    ItemsAre(choice, candidates);
    forall k | 0 <= k < |Order(items)| ensures Order(items)[k] in items {
      assert Order(items)[k] in multiset(Order(items));
    }
  }

  lemma {:induction false} RejectionsAre(choice: Choice, candidates: seq<ProviderModel>)
    ensures forall k :: 0 <= k < |Rejections(choice, candidates)| ==>
      var x := Rejections(choice, candidates)[k]; Rejection(x.candidate, choice.needs) == Some(x.reason)
    decreases |candidates|
  {
    if candidates != [] { RejectionsAre(choice, candidates[..|candidates| - 1]); }
  }

  /** A route is refused exactly when every candidate is rejected. */
  lemma {:induction false} RouteRefusedIff(choice: Choice, candidates: seq<ProviderModel>)
    ensures Route(choice, candidates).Unsupported? <==> forall c :: c in candidates ==> Rejection(c, choice.needs).Some?
  {
    ItemsAre(choice, candidates);
    OrderSorted(Items(choice, candidates));
    FilterMembers(candidates, Eligible(choice));
    var items := Items(choice, candidates);
    if items != [] { assert Candidates(items)[0] in Candidates(items); }
  }

  /** The eligible candidates are listed by score, then rank, and each passes every check. */
  lemma {:induction false} RouteIsOrdered(choice: Choice, candidates: seq<ProviderModel>)
    requires Route(choice, candidates).Decision?
    ensures var d := Route(choice, candidates);
      && d.candidates != [] && d.score == Score(d.candidates[0], choice.objective)
      && (forall k :: 0 <= k < |d.candidates| ==> Rejection(d.candidates[k], choice.needs).None?)
      && forall i, j :: 0 <= i < j < |d.candidates| ==>
           Leq(ItemOf(choice, d.candidates[i]), ItemOf(choice, d.candidates[j]))
  {
    OrderSorted(Items(choice, candidates));
    OrderedItems(choice, candidates);
  }

  /** A candidate can serve the request: it is active, fits every pin that is set, and has
      every capability that is asked for. */
  ghost predicate Serves(c: ProviderModel, n: Needs) {
    && c.status == "active"
    && n.connectionPin in ["", c.connection]
    && n.providerPin in ["", c.provider, c.connection, c.protocol]
    && (n.embeddings ==> c.embeddings)
    && n.outputModality in c.outputModalities
    && (forall m :: m in n.inputModalities ==> m in c.inputModalities)
    && (n.strictSchema ==> c.schemaSupport == StrictJsonSchema)
    && (n.tools ==> "function" in c.toolModes)
  }

  /** Exactly the candidates that can serve the request are eligible. */
  lemma {:induction false} EligibleIffServes(choice: Choice, c: ProviderModel)
    ensures Eligible(choice)(c) <==> Serves(c, choice.needs)
  {
    var n := choice.needs;
    if n.inputModalities <= (set m | m in c.inputModalities) {
      assert forall m :: m in n.inputModalities ==> m in c.inputModalities;
    } else {
      var m :| m in n.inputModalities && m !in c.inputModalities;
    }
  }

  /** The checks of a candidate in their order, each with the reason it gives. */
  ghost function Checks(c: ProviderModel, n: Needs): seq<(bool, string)> {
    [(c.status == "active", "model_disabled"),
     (n.connectionPin in ["", c.connection], "connection_not_pinned"),
     (n.providerPin in ["", c.provider, c.connection, c.protocol], "provider_not_pinned"),
     (n.embeddings ==> c.embeddings, "embeddings_not_supported"),
     (n.outputModality in c.outputModalities, "missing_output_modality"),
     (forall m :: m in n.inputModalities ==> m in c.inputModalities, "missing_input_modality"),
     (n.strictSchema ==> c.schemaSupport == StrictJsonSchema, "strict_schema_not_supported"),
     (n.tools ==> "function" in c.toolModes, "tools_not_supported")]
  }

  /** A rejected candidate is given the reason of the first check that it fails. */
  lemma {:induction false} RejectionIsFirstFailed(c: ProviderModel, n: Needs, k: nat)
    requires var checks := Checks(c, n); k < |checks| && !checks[k].0 && forall j :: 0 <= j < k ==> checks[j].0
    ensures Rejection(c, n) == Some(Checks(c, n)[k].1)
  {
    var checks := Checks(c, n);
    assert checks[0].0 || k == 0;
    assert checks[1].0 || k <= 1;
    assert checks[2].0 || k <= 2;
    assert checks[3].0 || k <= 3;
    assert checks[4].0 || k <= 4;
    assert checks[5].0 || k <= 5;
    assert checks[6].0 || k <= 6;
  }

  lemma {:induction false} AllRejected(choice: Choice, candidates: seq<ProviderModel>)
    requires forall c :: c in candidates ==> Rejection(c, choice.needs).Some?
    ensures var rejected := Rejections(choice, candidates);
      && |rejected| == |candidates|
      && forall k :: 0 <= k < |candidates| ==>
           rejected[k] == Rejected(candidates[k], Rejection(candidates[k], choice.needs).value)
    decreases |candidates|
  {
    if candidates != [] { AllRejected(choice, candidates[..|candidates| - 1]); }
  }

  /** A refused route gives the reason of its first candidate that no pin excluded, or of its
      first candidate if pins excluded all of them. */
  lemma {:induction false} RefusalNamesFirstReason(choice: Choice, candidates: seq<ProviderModel>, i: nat)
    requires forall c :: c in candidates ==> Rejection(c, choice.needs).Some?
    requires i <= |candidates|
    requires forall k :: 0 <= k < i ==> IsPin(Rejection(candidates[k], choice.needs).value)
    requires i < |candidates| ==> !IsPin(Rejection(candidates[i], choice.needs).value)
    ensures Route(choice, candidates) == Unsupported(
      if i < |candidates| then Rejection(candidates[i], choice.needs).value
      else if candidates != [] then Rejection(candidates[0], choice.needs).value
      else "no_eligible_provider")
  {
    RouteRefusedIff(choice, candidates);
    AllRejected(choice, candidates);
    var rejected := Rejections(choice, candidates);
    assert forall k :: 0 <= k < i ==> IsPin(rejected[k].reason);
    assert FirstOther(rejected, 0) == i;
  }

  /** Among equally good candidates the one with the smaller draw per weight comes first. */
  lemma {:induction false} TiesGoByDraw(choice: Choice, candidates: seq<ProviderModel>, i: nat, j: nat)
    requires Route(choice, candidates).Decision? && i < j < |Route(choice, candidates).candidates|
    ensures var c, d := Route(choice, candidates).candidates[i], Route(choice, candidates).candidates[j];
      Score(c, choice.objective) == Score(d, choice.objective) ==>
        DrawOf(choice, c) / (if c.weight > 1 then c.weight else 1) as real
          <= DrawOf(choice, d) / (if d.weight > 1 then d.weight else 1) as real
  {
    RouteIsOrdered(choice, candidates);
  }

  /** The draw of a candidate: by its connection, or by itself if it has none. */
  function DrawOf(choice: Choice, c: ProviderModel): real {
    choice.draw(choice.seed + ":" + (if c.connection == "" then c.id else c.connection) + ":" + c.id)
  }

  /** The candidate tried first is the best eligible one under the objective: the cheapest,
      the fastest, the most reliable or the one of lowest priority number. */
  lemma {:induction false} FirstIsBest(choice: Choice, candidates: seq<ProviderModel>, other: ProviderModel)
    requires Route(choice, candidates).Decision? && other in candidates && Serves(other, choice.needs)
    ensures var best := Route(choice, candidates).candidates[0];
      && (choice.objective == LowestCost ==> best.inputPrice + best.outputPrice <= other.inputPrice + other.outputPrice)
      && (choice.objective == LowestLatency ==> best.latencyMs <= other.latencyMs)
      && (choice.objective == HighestReliability ==> best.reliability >= other.reliability)
      && (choice.objective == Balanced ==> best.priority <= other.priority)
  {
    EligibleIffServes(choice, other);
    RouteIsOrdered(choice, candidates);
    OrderKeepsCandidates(Items(choice, candidates));
    ItemsAre(choice, candidates);
    FilterMembers(candidates, Eligible(choice));
    var d := Route(choice, candidates);
    assert other in Candidates(Items(choice, candidates));
    assert other in multiset(d.candidates);
    var k :| 0 <= k < |d.candidates| && d.candidates[k] == other;
    if k > 0 { assert Leq(ItemOf(choice, d.candidates[0]), ItemOf(choice, other)); }
  }

  /** Whatever the request, a route lists each candidate of the model exactly once, as
      eligible or as rejected with its reason. */
  lemma {:induction false} RoutePartitions(choice: Choice, candidates: seq<ProviderModel>)
    requires Route(choice, candidates).Decision?
    ensures var d := Route(choice, candidates);
      && multiset(d.candidates) + multiset(RejectedModels(d.rejected)) == multiset(candidates)
      && forall k :: 0 <= k < |d.rejected| ==>
         Rejection(d.rejected[k].candidate, choice.needs) == Some(d.rejected[k].reason)
  {
    RejectionsAre(choice, candidates);
    PartitionItems(choice, candidates);
    OrderKeepsCandidates(Items(choice, candidates));
  }

  // ------------------------------------------------------- removing and reweighting

  function OfCandidate(keep: ProviderModel -> bool): Item -> bool { (x: Item) => keep(x.candidate) }

  lemma {:induction false} ItemsOfFiltered(choice: Choice, candidates: seq<ProviderModel>, keep: ProviderModel -> bool)
    ensures Items(choice, Filter(candidates, keep)) == Filter(Items(choice, candidates), OfCandidate(keep))
    decreases |candidates|
  {
    if candidates != [] {
      var init, last := candidates[..|candidates| - 1], candidates[|candidates| - 1];
      ItemsOfFiltered(choice, init, keep);
      FilterLast(candidates, keep);
      assert (Filter(init, keep) + [last])[..|Filter(init, keep)|] == Filter(init, keep);
      if Eligible(choice)(last) {
        FilterLast(Items(choice, candidates), OfCandidate(keep));
      } else {
        assert Items(choice, candidates) == Items(choice, init);
        if keep(last) { assert Items(choice, Filter(candidates, keep)) == Items(choice, Filter(init, keep)); }
      }
    }
  }

  lemma {:induction false} CandidatesOfFiltered(items: seq<Item>, keep: ProviderModel -> bool)
    ensures Candidates(Filter(items, OfCandidate(keep))) == Filter(Candidates(items), keep)
    decreases |items|
  {
    if items != [] {
      var init, last := items[..|items| - 1], items[|items| - 1];
      CandidatesOfFiltered(init, keep);
      FilterLast(items, OfCandidate(keep));
      assert Candidates(items)[..|items| - 1] == Candidates(init);
      FilterLast(Candidates(items), keep);
    }
  }

  /** Removing any candidates from the catalogue removes them from the route and leaves
      the others in the same relative order. */
  lemma {:induction false} RemovalKeepsRoute(
      choice: Choice, candidates: seq<ProviderModel>, keep: ProviderModel -> bool)
    ensures Candidates(Order(Items(choice, Filter(candidates, keep))))
         == Filter(Candidates(Order(Items(choice, candidates))), keep)
  {
    ItemsOfFiltered(choice, candidates, keep);
    RemovingKeepsOrder(Items(choice, candidates), OfCandidate(keep));
    CandidatesOfFiltered(Order(Items(choice, candidates)), keep);
  }

  /** So the candidates left by the circuit breaker and then by the budget are tried in
      the order of a catalogue that never had the others. */
  lemma {:induction false} OpenCircuitsAndBudgetKeepOrder(
    choice: Choice, candidates: seq<ProviderModel>, closed: ProviderModel -> bool, r: RequestCost.Request)
    requires Route(choice, candidates).Decision?
    ensures var tried := RequestCost.Fitting(r, Filter(Route(choice, candidates).candidates, closed));
            var d := Route(choice, Filter(Filter(candidates, closed), RequestCost.Fits(r)));
      if d.Decision? then tried == d.candidates else tried == []
  {
    RemovalKeepsRoute(choice, candidates, closed);
    RemovalKeepsRoute(choice, Filter(candidates, closed), RequestCost.Fits(r));
  }

  lemma {:induction false} ItemsAppend(choice: Choice, a: seq<ProviderModel>, b: seq<ProviderModel>)
    ensures Items(choice, a + b) == Items(choice, a) + Items(choice, b)
    decreases |b|
  {
    if b == [] {
      assert a + b == a;
    } else {
      assert (a + b)[..|a + b| - 1] == a + b[..|b| - 1];
      ItemsAppend(choice, a, b[..|b| - 1]);
    }
  }

  lemma {:induction false} HeavierRanksNoLater(choice: Choice, c: ProviderModel, weight: int)
    requires weight >= c.weight && forall text :: choice.draw(text) >= 0.0
    ensures Leq(ItemOf(choice, c.(weight := weight)), ItemOf(choice, c))
  {
    var identity := if c.connection != "" then c.connection else c.id;
    var e := choice.draw(choice.seed + ":" + identity + ":" + c.id);
    DivideByMore(e, Max(c.weight, 1) as real, Max(weight, 1) as real);
  }

  lemma {:induction false} DivideByMore(e: real, w: real, v: real)
    requires e >= 0.0 && 0.0 < w <= v
    ensures e / v <= e / w
  {
    var q := e / v;
    assert q * v == e && q >= 0.0;
    assert q * w <= q * v;
    assert e / w >= (q * w) / w;
  }

  function PutModel(s: seq<ProviderModel>, i: nat, c: ProviderModel): seq<ProviderModel>
    requires i <= |s|
  {
    s[..i] + [c] + s[i..]
  }

  /** Raising the weight of one eligible candidate moves it from place `i` of the route to
      a place `j <= i`; all the others keep their places relative to each other. */
  lemma {:induction false} RaisingWeightMovesForward(
      choice: Choice, a: seq<ProviderModel>, c: ProviderModel, weight: int, b: seq<ProviderModel>)
    returns (i: nat, j: nat)
    requires weight >= c.weight && Eligible(choice)(c) && forall text :: choice.draw(text) >= 0.0
    ensures var others := Candidates(Order(Items(choice, a + b)));
            var heavier := c.(weight := weight);
      && j <= i <= |others|
      && Route(choice, a + [c] + b).Decision? && Route(choice, a + [heavier] + b).Decision?
      && Route(choice, a + [c] + b).candidates == PutModel(others, i, c)
      && Route(choice, a + [heavier] + b).candidates == PutModel(others, j, heavier)
  {
    var heavier := c.(weight := weight);
    var x, y := ItemOf(choice, c), ItemOf(choice, heavier);
    HeavierRanksNoLater(choice, c, weight);
    ItemsAround(choice, a, c, b);
    ItemsAround(choice, a, heavier, b);
    ItemsAppend(choice, a, b);
    i, j := ReplacingMovesOnlyIt(Items(choice, a), x, y, Items(choice, b));
    var others := Order(Items(choice, a) + Items(choice, b));
    CandidatesPut(others, i, x);
    CandidatesPut(others, j, y);
  }

  lemma {:induction false} ItemsAround(choice: Choice, a: seq<ProviderModel>, c: ProviderModel, b: seq<ProviderModel>)
    requires Eligible(choice)(c)
    ensures Items(choice, a + [c] + b) == Items(choice, a) + [ItemOf(choice, c)] + Items(choice, b)
  {
    ItemsAppend(choice, a + [c], b);
    ItemsAppend(choice, a, [c]);
  }
}
