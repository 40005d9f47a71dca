/** Prices, half-even rounding and the reservation estimates of mixapi/app.py.  Rounded
    costs are integers of 1e-8 USD; prices and limits are exact decimals, written as reals. */
module RequestCost {
  import opened Prelude
  import opened CorrectiveRetry
  import opened Models

  const UNITS := 100000000.0

  /** `quantize` under the default decimal context: nearest, ties to even. */
  function HalfEven(x: real): (r: int)
    ensures -0.5 <= r as real - x <= 0.5
    ensures r as real - x == 0.5 || x - r as real == 0.5 ==> r % 2 == 0
  {
    var low := x.Floor;
    var rest := x - low as real;
    if rest < 0.5 || (rest == 0.5 && low % 2 == 0) then low else low + 1
  }

  /** No other integer is nearer, and no other integer at the same distance is even. */
  lemma {:induction false} HalfEvenIsUnique(x: real, n: int)
    requires -0.5 <= n as real - x <= 0.5
    requires n as real - x == 0.5 || x - n as real == 0.5 ==> n % 2 == 0
    ensures n == HalfEven(x)
  {
    var low := x.Floor;
    assert low as real <= x < low as real + 1.0;
    assert n == low || n == low + 1;
  }

  lemma {:induction false} HalfEvenMonotone(x: real, y: real)
    requires x <= y
    ensures HalfEven(x) <= HalfEven(y)
  {
    assert x.Floor <= y.Floor;
  }

  /** Prices are per million tokens. */
  function Price(perMillion: real, tokens: nat): real { perMillion * tokens as real / 1000000.0 }

  /** `_estimate_cost`, in units. */
  function EstimateCost(inputTokens: nat, outputTokens: nat, inputPrice: real, outputPrice: real): int {
    HalfEven((Price(inputPrice, inputTokens) + Price(outputPrice, outputTokens)) * UNITS)
  }

  lemma {:induction false} TimesMonotone(perMillion: real, x: real, y: real)
    requires perMillion >= 0.0 && 0.0 <= x <= y
    ensures 0.0 <= perMillion * x <= perMillion * y
  {
  }

  lemma {:induction false} PriceMonotone(perMillion: real, a: nat, b: nat)
    requires perMillion >= 0.0 && a <= b
    ensures 0.0 <= Price(perMillion, a) <= Price(perMillion, b)
  {
    TimesMonotone(perMillion, a as real, b as real);
  }

  lemma {:induction false} SumMonotone(x: real, x': real, y: real, y': real)
    requires 0.0 <= x <= x' && 0.0 <= y <= y'
    ensures 0 <= HalfEven((x + y) * UNITS) <= HalfEven((x' + y') * UNITS)
  {
    HalfEvenMonotone((x + y) * UNITS, (x' + y') * UNITS);
    HalfEvenMonotone(0.0, (x + y) * UNITS);
    HalfEvenIsUnique(0.0, 0);
  }

  /** With non-negative prices, more tokens never cost less after rounding. */
  lemma {:induction false} CostMonotone(i: nat, o: nat, i': nat, o': nat, inputPrice: real, outputPrice: real)
    requires inputPrice >= 0.0 && outputPrice >= 0.0
    requires i <= i' && o <= o'
    ensures 0 <= EstimateCost(i, o, inputPrice, outputPrice) <= EstimateCost(i', o', inputPrice, outputPrice)
  {
    PriceMonotone(inputPrice, i, i');
    PriceMonotone(outputPrice, o, o');
    SumMonotone(Price(inputPrice, i), Price(inputPrice, i'), Price(outputPrice, o), Price(outputPrice, o'));
  }

  lemma {:induction false} PerMillion(x: real, y: real)
    ensures (x / 1000000.0 + y / 1000000.0) * UNITS == (x + y) * 100.0
  {
  }

  /** A million tokens cost their price and a unit is 1e-8 USD, so a dispatch costs the
      integer nearest to a hundred times what its tokens cost at their own prices. */
  lemma {:induction false} CostIsNearest(i: nat, o: nat, inputPrice: real, outputPrice: real)
    ensures var exact := (inputPrice * i as real + outputPrice * o as real) * 100.0;
            var cost := EstimateCost(i, o, inputPrice, outputPrice);
      && -0.5 <= cost as real - exact <= 0.5
      && (cost as real - exact == 0.5 || exact - cost as real == 0.5 ==> cost % 2 == 0)
  {
    PerMillion(inputPrice * i as real, outputPrice * o as real);
  }

  lemma {:induction false} MillionTokens(inputPrice: real, outputPrice: real)
    ensures EstimateCost(1000000, 0, inputPrice, outputPrice) == HalfEven(inputPrice * UNITS)
    ensures EstimateCost(0, 1000000, inputPrice, outputPrice) == HalfEven(outputPrice * UNITS)
  {
    assert Price(inputPrice, 0) == 0.0 && Price(outputPrice, 0) == 0.0;
    assert Price(inputPrice, 1000000) == inputPrice && Price(outputPrice, 1000000) == outputPrice;
  }

  // ------------------------------------------------------------------ `_units`

  /** `int(value * 100000000)`: truncation toward zero. */
  function Units(value: real): int {
    var scaled := value * UNITS;
    if scaled >= 0.0 then scaled.Floor else -(-scaled).Floor
  }

  predicate AdmittedExactly(limit: real, amount: int) { amount as real <= limit * UNITS }

  predicate AdmittedInUnits(limit: real, amount: int) { amount <= Units(limit) }

  /** The script compares a sum of spend, reservations and estimate, which is never
      negative.  Its comparison with the truncated limit admits exactly the sums that the
      exact comparison admits if and only if the limit is not a negative fraction of one
      unit. */
  lemma {:induction false} UnitsAdmitsExactlyIff(limit: real)
    ensures (forall sum: nat :: AdmittedInUnits(limit, sum) <==> AdmittedExactly(limit, sum))
       <==> limit >= 0.0 || limit * UNITS <= -1.0
  {
    if -1.0 < limit * UNITS < 0.0 {
      assert AdmittedInUnits(limit, 0) && !AdmittedExactly(limit, 0);
    }
  }

  /** A limit of minus half a unit still admits the sum zero. */
  lemma {:induction false} HalfUnitBelowZero()
    ensures AdmittedInUnits(-0.000000005, 0) && !AdmittedExactly(-0.000000005, 0)
  {
    assert -0.000000005 * UNITS == -0.5;
    assert Units(-0.000000005) == 0;
  }

  // ----------------------------------------------------------- requests and candidates

  datatype Request = Request(input: Input, maxOutputTokens: Option<nat>, structured: bool, maxCostUsd: Option<real>)

  predicate Priced(candidates: seq<ProviderModel>) {
    forall i :: 0 <= i < |candidates| ==> candidates[i].inputPrice >= 0.0 && candidates[i].outputPrice >= 0.0
  }

  function OutputLimit(r: Request, c: ProviderModel): nat {
    if r.maxOutputTokens.Some? then r.maxOutputTokens.value else c.maxOutputTokens
  }

  /** The input tokens reserved for the first dispatch (0) and the corrective one (1). */
  function InputLimit(r: Request, j: nat): nat {
    CountTokens(ExtractText(r.input)) + if j == 0 then 0 else CORRECTIVE_RETRY_TOKEN_RESERVE
  }

  function DispatchEstimate(r: Request, c: ProviderModel, j: nat): int {
    EstimateCost(InputLimit(r, j), OutputLimit(r, c), c.inputPrice, c.outputPrice)
  }

  /** How many times a candidate may be dispatched. */
  function Dispatches(r: Request): nat { if r.structured then 2 else 1 }

  function Estimate(r: Request, c: ProviderModel): int {
    if r.structured then DispatchEstimate(r, c, 0) + DispatchEstimate(r, c, 1) else DispatchEstimate(r, c, 0)
  }

  predicate OverLimit(r: Request, cost: int) { r.maxCostUsd.Some? && cost as real > r.maxCostUsd.value * UNITS }

  // --------------------------------------------------------- the budget reservation

  datatype BudgetPlan =
    | BudgetExceeded
    | BudgetPlan(eligible: seq<ProviderModel>, rejected: seq<ProviderModel>, reservation: int)

  /** The limit is applied to a single candidate only when nothing will be summed. */
  function Fits(r: Request): ProviderModel -> bool {
    (c: ProviderModel) => r.structured || !OverLimit(r, Estimate(r, c))
  }

  function Fitting(r: Request, candidates: seq<ProviderModel>): seq<ProviderModel> { Filter(candidates, Fits(r)) }

  function Unfitting(r: Request, candidates: seq<ProviderModel>): seq<ProviderModel> {
    Filter(candidates, (c: ProviderModel) => !Fits(r)(c))
  }

  /** The sum of the estimates of a structured request, the largest otherwise. */
  function Reservation(r: Request, candidates: seq<ProviderModel>): int
    decreases |candidates|
  {
    if candidates == [] then 0 else
      var before, last := Reservation(r, candidates[..|candidates| - 1]), Estimate(r, candidates[|candidates| - 1]);
      if r.structured then before + last else if |candidates| == 1 then last else Max(before, last)
  }

  function Plan(r: Request, candidates: seq<ProviderModel>): BudgetPlan {
    var eligible := Fitting(r, candidates);
    var cost := Reservation(r, eligible);
    if eligible == [] || (r.structured && OverLimit(r, cost)) then BudgetExceeded
    else BudgetPlan(eligible, Unfitting(r, candidates), cost)
  }

  /** `_budget_eligible_candidates`. */
  method BudgetEligibleCandidates(r: Request, candidates: seq<ProviderModel>) returns (plan: BudgetPlan)
    ensures plan == Plan(r, candidates)
  {
    var eligible, rejected, estimates: seq<int> := [], [], [];
    for i := 0 to |candidates|
      invariant eligible == Fitting(r, candidates[..i])
      invariant rejected == Unfitting(r, candidates[..i])
      invariant estimates == seq(|eligible|, k requires 0 <= k < |eligible| => Estimate(r, eligible[k]))
    {
      var candidate := candidates[i];
      assert candidates[..i + 1][..i] == candidates[..i];
      var estimate := Estimate(r, candidate);
      if OverLimit(r, estimate) && !r.structured {
        rejected := rejected + [candidate];
      } else {
        eligible := eligible + [candidate];
        estimates := estimates + [estimate];
      }
    }
    assert candidates[..|candidates|] == candidates;
    if eligible == [] { return BudgetExceeded; }
    var cost := Combine(r, eligible, estimates);
    if r.structured && OverLimit(r, cost) { return BudgetExceeded; }
    return BudgetPlan(eligible, rejected, cost);
  }

  /** `sum` or `max` of the collected estimates. */
  method Combine(r: Request, eligible: seq<ProviderModel>, estimates: seq<int>) returns (cost: int)
    requires |eligible| == |estimates| && forall k :: 0 <= k < |eligible| ==> estimates[k] == Estimate(r, eligible[k])
    ensures cost == Reservation(r, eligible)
  {
    cost := 0;
    for i := 0 to |estimates|
      invariant cost == Reservation(r, eligible[..i])
    {
      assert eligible[..i + 1][..i] == eligible[..i];
      cost := if r.structured then cost + estimates[i] else if i == 0 then estimates[i] else Max(cost, estimates[i]);
    }
    assert eligible[..|estimates|] == eligible;
  }

  lemma {:induction false} EstimateNotNegative(r: Request, c: ProviderModel)
    requires Priced([c])
    ensures Estimate(r, c) >= 0
  {
    assert [c][0] == c;
    CostMonotone(InputLimit(r, 0), OutputLimit(r, c), InputLimit(r, 0), OutputLimit(r, c), c.inputPrice, c.outputPrice);
    CostMonotone(InputLimit(r, 1), OutputLimit(r, c), InputLimit(r, 1), OutputLimit(r, c), c.inputPrice, c.outputPrice);
  }

  /** The reservation covers each estimate it was made from. */
  lemma {:induction false} ReservationCovers(r: Request, candidates: seq<ProviderModel>)
    requires Priced(candidates)
    ensures Reservation(r, candidates) >= 0
    ensures forall i :: 0 <= i < |candidates| ==> Estimate(r, candidates[i]) <= Reservation(r, candidates)
    decreases |candidates|
  {
    if candidates != [] {
      ReservationCovers(r, candidates[..|candidates| - 1]);
      assert [candidates[|candidates| - 1]][0] == candidates[|candidates| - 1];
      EstimateNotNegative(r, candidates[|candidates| - 1]);
    }
  }

  /** An unstructured reservation is an estimate of one of its candidates. */
  lemma {:induction false} LargestIsAnEstimate(r: Request, candidates: seq<ProviderModel>) returns (i: nat)
    requires !r.structured && candidates != []
    ensures i < |candidates| && Estimate(r, candidates[i]) == Reservation(r, candidates)
    decreases |candidates|
  {
    i := |candidates| - 1;
    if |candidates| > 1 && Reservation(r, candidates) != Estimate(r, candidates[i]) {
      i := LargestIsAnEstimate(r, candidates[..|candidates| - 1]);
    }
  }

  lemma {:induction false} FittingFits(r: Request, candidates: seq<ProviderModel>)
    ensures forall c :: c in Fitting(r, candidates) <==>
      c in candidates && (r.structured || !OverLimit(r, Estimate(r, c)))
    ensures forall c :: c in Unfitting(r, candidates) <==>
      c in candidates && !r.structured && OverLimit(r, Estimate(r, c))
    ensures r.structured ==> Fitting(r, candidates) == candidates
  {
    FilterMembers(candidates, Fits(r));
    FilterMembers(candidates, (c: ProviderModel) => !Fits(r)(c));
    if r.structured { FilterAll(candidates, Fits(r)); }
  }

  /** What a reservation is made of: the prompt is counted once, the output is the request's
      limit or else the model's.  Structured requests reserve for each candidate a first
      and a corrective dispatch, which may count 320 tokens more; other requests the
      dearest candidate. */
  ghost predicate FirstCosts(r: Request, c: ProviderModel, extra: nat, cost: int) {
    cost == EstimateCost(CountTokens(ExtractText(r.input)) + extra,
                         if r.maxOutputTokens.Some? then r.maxOutputTokens.value else c.maxOutputTokens,
                         c.inputPrice, c.outputPrice)
  }

  lemma {:induction false} StructuredReservationAdds(
      r: Request, candidates: seq<ProviderModel>, c: ProviderModel, first: int, corrective: int)
    requires r.structured && FirstCosts(r, c, 0, first) && FirstCosts(r, c, 320, corrective)
    ensures Reservation(r, []) == 0
    ensures Reservation(r, candidates + [c]) == Reservation(r, candidates) + first + corrective
  {
    assert (candidates + [c])[..|candidates|] == candidates;
  }

  lemma {:induction false} ReservationIsLargest(r: Request, candidates: seq<ProviderModel>, i: nat, cost: int)
    requires !r.structured && i < |candidates| && FirstCosts(r, candidates[i], 0, cost)
    ensures cost <= Reservation(r, candidates)
    decreases |candidates|
  {
    if i < |candidates| - 1 { ReservationIsLargest(r, candidates[..|candidates| - 1], i, cost); }
  }

  /** An unstructured reservation is the cost of its dearest candidate. */
  lemma {:induction false} UnstructuredReservationIs(r: Request, candidates: seq<ProviderModel>) returns (i: nat)
    requires !r.structured && candidates != []
    ensures i < |candidates| && FirstCosts(r, candidates[i], 0, Reservation(r, candidates))
    ensures forall k, cost :: 0 <= k < |candidates| && FirstCosts(r, candidates[k], 0, cost) ==>
      cost <= Reservation(r, candidates)
  {
    i := LargestIsAnEstimate(r, candidates);
    forall k, cost | 0 <= k < |candidates| && FirstCosts(r, candidates[k], 0, cost)
      ensures cost <= Reservation(r, candidates)
    {
      ReservationIsLargest(r, candidates, k, cost);
    }
  }

  /** An amount in dollars above the limit in dollars. */
  predicate Exceeds(limit: Option<real>, units: int) { limit.Some? && units as real / 100000000.0 > limit.value }

  lemma {:induction false} OverLimitIff(r: Request, cost: int)
    ensures OverLimit(r, cost) <==> Exceeds(r.maxCostUsd, cost)
  {
    if r.maxCostUsd.Some? { assert cost as real / 100000000.0 * UNITS == cost as real; }
  }

  /** A plan never reserves more than `max_cost_usd`; it is refused exactly when no
      candidate alone fits, or when a structured request's whole sum does not fit.  It
      keeps the candidates that fit and names the others. */
  lemma {:induction false} PlanWithinMaxCost(r: Request, candidates: seq<ProviderModel>)
    ensures var plan, limit := Plan(r, candidates), r.maxCostUsd;
      && (plan.BudgetPlan? ==>
            && !Exceeds(limit, plan.reservation) && plan.eligible != []
            && plan.reservation == Reservation(r, plan.eligible)
            && (forall c :: c in plan.eligible <==>
                  c in candidates && (r.structured || !Exceeds(limit, Estimate(r, c))))
            && (forall c :: c in plan.rejected <==> c in candidates && c !in plan.eligible))
      && (plan.BudgetExceeded? <==>
            if r.structured then candidates == [] || Exceeds(limit, Reservation(r, candidates))
            else forall c :: c in candidates ==> Exceeds(limit, Estimate(r, c)))
  {
    FittingFits(r, candidates);
    var eligible := Fitting(r, candidates);
    OverLimitIff(r, Reservation(r, eligible));
    forall c ensures OverLimit(r, Estimate(r, c)) <==> Exceeds(r.maxCostUsd, Estimate(r, c)) {
      OverLimitIff(r, Estimate(r, c));
    }
    if !r.structured && eligible != [] {
      var i := LargestIsAnEstimate(r, eligible);
      assert eligible[i] in eligible && eligible[i] in candidates;
    }
    if !r.structured && eligible == [] {
      forall c | c in candidates ensures OverLimit(r, Estimate(r, c)) {
        assert c !in eligible;
      }
    }
  }

  // ---------------------------------------------------------------- the token estimate

  function CandidateTokens(r: Request, c: ProviderModel): nat { InputLimit(r, 0) + OutputLimit(r, c) }

  /** `_estimate_request_tokens` for the responses endpoint. */
  function EstimateTokens(r: Request, candidates: seq<ProviderModel>): nat
    decreases |candidates|
  {
    if candidates == [] then if r.structured then 0 else InputLimit(r, 0) else
      var before, last := EstimateTokens(r, candidates[..|candidates| - 1]),
          CandidateTokens(r, candidates[|candidates| - 1]);
      if r.structured then before + last * 2 + CORRECTIVE_RETRY_TOKEN_RESERVE
      else if |candidates| == 1 then last else Max(before, last)
  }

  /** Input and output of each candidate's dispatches: summed for structured requests, with
      the corrective dispatch and its 320 tokens, otherwise those of one candidate. */
  lemma {:induction false} TokensAre(r: Request, candidates: seq<ProviderModel>, c: ProviderModel)
    ensures var input := CountTokens(ExtractText(r.input));
            var tokens := input + if r.maxOutputTokens.Some? then r.maxOutputTokens.value else c.maxOutputTokens;
      && EstimateTokens(r, []) == (if r.structured then 0 else input)
      && EstimateTokens(r, candidates + [c]) ==
           if r.structured then EstimateTokens(r, candidates) + 2 * tokens + 320
           else if candidates == [] then tokens else Max(EstimateTokens(r, candidates), tokens)
  {
    assert (candidates + [c])[..|candidates|] == candidates;
  }

  lemma {:induction false} TokensCover(r: Request, candidates: seq<ProviderModel>)
    ensures forall i :: 0 <= i < |candidates| ==> CandidateTokens(r, candidates[i]) <= EstimateTokens(r, candidates)
    decreases |candidates|
  {
    if candidates != [] { TokensCover(r, candidates[..|candidates| - 1]); }
  }
}
