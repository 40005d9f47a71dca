/** `_dispatch_response_with_fallback` of mixapi/app.py and the accounting after it:
    what a request bills is within what it reserved. */
module Dispatch {
  import opened Prelude
  import opened CorrectiveRetry
  import opened Models
  import opened RequestCost
  import UsageLedger

  datatype Response = Response(text: string, inputTokens: nat, outputTokens: nat)

  datatype Reply = Failed(reason: string) | Replied(response: Response)

  /** Whether a concurrency slot and a connection request are granted to candidate `i`. */
  datatype Gates = Gates(slot: nat -> bool, request: nat -> bool)

  /** Everything outside the loop: the gates, what dispatch `j` of an input to candidate `i`
      replies, and the failures that validation reports for a text (none if it is valid). */
  datatype World = World(
    gates: Gates,
    reply: (nat, nat, Input) -> Reply,
    validate: string -> seq<Failure>)

  datatype FailedAttempt =
    | ConcurrencyLimitExceeded(candidate: ProviderModel)
    | RequestQuotaExceeded(candidate: ProviderModel)
    | ProviderFailed(candidate: ProviderModel, reason: string)
    | SchemaValidationFailed(candidate: ProviderModel)

  datatype Billable = Billable(candidate: ProviderModel, response: Response)

  datatype Outcome =
    | Answered(response: Response, selected: ProviderModel, failed: seq<FailedAttempt>, billable: seq<Billable>)
    | AllFailed(failed: seq<FailedAttempt>, billable: seq<Billable>, failures: seq<Failure>)

  predicate SlotRefused(g: Gates, c: ProviderModel, i: nat) {
    c.connection != "" && c.concurrencyLimit > 0 && !g.slot(i)
  }

  predicate RequestRefused(g: Gates, c: ProviderModel, i: nat) {
    c.connection != "" && c.requestQuota > 0 && !g.request(i)
  }

  function WithFailed(o: Outcome, attempt: FailedAttempt): Outcome
    requires o.AllFailed?
  {
    AllFailed(o.failed + [attempt], o.billable, o.failures)
  }

  /** Dispatches `j` and later of one candidate. */
  function Attempts(w: World, r: Request, c: ProviderModel, i: nat, j: nat, input: Input, before: Outcome): Outcome
    requires before.AllFailed? && j <= Dispatches(r)
    decreases Dispatches(r) - j
  {
    if j == Dispatches(r) then before else
      match w.reply(i, j, input)
      case Failed(reason) => WithFailed(before, ProviderFailed(c, reason))
      case Replied(response) =>
        var billable := before.billable + [Billable(c, response)];
        var failures := w.validate(response.text);
        if !r.structured || failures == [] then Answered(response, c, before.failed, billable)
        else
          Attempts(w, r, c, i, j + 1, if j == 0 then CorrectiveInput(r.input, failures) else input,
                   AllFailed(before.failed + [SchemaValidationFailed(c)], billable, failures))
  }

  function Try(w: World, r: Request, c: ProviderModel, i: nat, before: Outcome): Outcome
    requires before.AllFailed?
  {
    if SlotRefused(w.gates, c, i) then WithFailed(before, ConcurrencyLimitExceeded(c))
    else if RequestRefused(w.gates, c, i) then WithFailed(before, RequestQuotaExceeded(c))
    else Attempts(w, r, c, i, 0, r.input, before)
  }

  /** The outcome after the candidates of a list. */
  function Fallback(w: World, r: Request, candidates: seq<ProviderModel>): Outcome
    decreases |candidates|
  {
    if candidates == [] then AllFailed([], [], []) else
      var n := |candidates| - 1;
      var before := Fallback(w, r, candidates[..n]);
      if before.Answered? then before else Try(w, r, candidates[n], n, before)
  }

  lemma {:induction false} AnsweredEarly(w: World, r: Request, candidates: seq<ProviderModel>, n: nat)
    requires n <= |candidates| && Fallback(w, r, candidates[..n]).Answered?
    ensures Fallback(w, r, candidates) == Fallback(w, r, candidates[..n])
    decreases |candidates|
  {
    if n == |candidates| {
      assert candidates[..n] == candidates;
    } else {
      var init := candidates[..|candidates| - 1];
      assert init[..n] == candidates[..n];
      AnsweredEarly(w, r, init, n);
    }
  }

  method DispatchCandidate(w: World, r: Request, c: ProviderModel, i: nat, before: Outcome) returns (after: Outcome)
    requires before.AllFailed?
    ensures after == Attempts(w, r, c, i, 0, r.input, before)
  {
    var dispatchRequest := r.input;
    var failed, billable, validationFailures := before.failed, before.billable, before.failures;
    var dispatchCount := if r.structured then 2 else 1;
    for j := 0 to dispatchCount
      invariant Attempts(w, r, c, i, j, dispatchRequest, AllFailed(failed, billable, validationFailures))
             == Attempts(w, r, c, i, 0, r.input, before)
    {
      var reply := w.reply(i, j, dispatchRequest);
      if reply.Failed? {
        failed := failed + [ProviderFailed(c, reply.reason)];
        return AllFailed(failed, billable, validationFailures);
      }
      billable := billable + [Billable(c, reply.response)];
      if !r.structured { return Answered(reply.response, c, failed, billable); }
      var failures := w.validate(reply.response.text);
      if failures == [] { return Answered(reply.response, c, failed, billable); }
      validationFailures := failures;
      failed := failed + [SchemaValidationFailed(c)];
      if j == 0 { dispatchRequest := CorrectiveInput(r.input, failures); }
    }
    return AllFailed(failed, billable, validationFailures);
  }

  method DispatchResponseWithFallback(w: World, r: Request, candidates: seq<ProviderModel>) returns (outcome: Outcome)
    ensures outcome == Fallback(w, r, candidates)
  {
    outcome := AllFailed([], [], []);
    for i := 0 to |candidates|
      invariant outcome.AllFailed? && outcome == Fallback(w, r, candidates[..i])
    {
      var candidate := candidates[i];
      assert candidates[..i + 1][..i] == candidates[..i];
      if candidate.connection != "" && candidate.concurrencyLimit > 0 && !w.gates.slot(i) {
        outcome := WithFailed(outcome, ConcurrencyLimitExceeded(candidate));
        continue;
      }
      if candidate.connection != "" && candidate.requestQuota > 0 && !w.gates.request(i) {
        outcome := WithFailed(outcome, RequestQuotaExceeded(candidate));
        continue;
      }
      outcome := DispatchCandidate(w, r, candidate, i, outcome);
      if outcome.Answered? {
        AnsweredEarly(w, r, candidates, i + 1);
        return;
      }
    }
    assert candidates[..|candidates|] == candidates;
  }

  // ------------------------------------------------------------- which candidate answers

  predicate Accepted(w: World, r: Request, reply: Reply) {
    reply.Replied? && (!r.structured || w.validate(reply.response.text) == [])
  }

  /** Candidate `i` would answer: it is let through and its first or, after a rejected
      text, its corrective reply is accepted. */
  predicate Answers(w: World, r: Request, c: ProviderModel, i: nat) {
    var first := w.reply(i, 0, r.input);
    && !SlotRefused(w.gates, c, i) && !RequestRefused(w.gates, c, i)
    && (Accepted(w, r, first) ||
        (r.structured && first.Replied?
         && Accepted(w, r, w.reply(i, 1, CorrectiveInput(r.input, w.validate(first.response.text))))))
  }

  lemma {:induction false} TryAnswersIff(w: World, r: Request, c: ProviderModel, i: nat, before: Outcome)
    requires before.AllFailed?
    ensures Try(w, r, c, i, before).Answered? <==> Answers(w, r, c, i)
    ensures Try(w, r, c, i, before).Answered? ==> Try(w, r, c, i, before).selected == c
  {
    if && !SlotRefused(w.gates, c, i) && !RequestRefused(w.gates, c, i)
       && r.structured && w.reply(i, 0, r.input).Replied? {
      var response := w.reply(i, 0, r.input).response;
      var failures := w.validate(response.text);
      if failures != [] {
        var next := AllFailed(before.failed + [SchemaValidationFailed(c)], before.billable + [Billable(c, response)],
                              failures);
        var corrected := CorrectiveInput(r.input, failures);
        assert Try(w, r, c, i, before) == Attempts(w, r, c, i, 1, corrected, next);
        if w.reply(i, 1, corrected).Replied? {
          var second := w.reply(i, 1, corrected).response;
          var last := AllFailed(
            next.failed + [SchemaValidationFailed(c)], next.billable + [Billable(c, second)], w.validate(second.text));
          assert Attempts(w, r, c, i, 2, corrected, last).AllFailed?;
        }
      }
    }
  }

  ghost predicate FirstAnswer(w: World, r: Request, candidates: seq<ProviderModel>, i: nat) {
    && i < |candidates| && Answers(w, r, candidates[i], i)
    && forall k :: 0 <= k < i ==> !Answers(w, r, candidates[k], k)
  }

  lemma {:induction false} AnsweredBy(w: World, r: Request, candidates: seq<ProviderModel>) returns (i: nat)
    ensures var o := Fallback(w, r, candidates);
      if o.Answered? then FirstAnswer(w, r, candidates, i) && o.selected == candidates[i]
      else forall k :: 0 <= k < |candidates| ==> !Answers(w, r, candidates[k], k)
    decreases |candidates|
  {
    i := 0;
    if candidates != [] {
      var n := |candidates| - 1;
      i := AnsweredBy(w, r, candidates[..n]);
      assert forall k :: 0 <= k < n ==> candidates[..n][k] == candidates[k];
      var before := Fallback(w, r, candidates[..n]);
      if before.AllFailed? {
        TryAnswersIff(w, r, candidates[n], n, before);
        i := n;
      }
    }
  }

  /** The loop answers exactly when some candidate would, and with the first one in order. */
  lemma {:induction false} FirstAnsweringCandidateIsSelected(
      w: World, r: Request, candidates: seq<ProviderModel>)
    returns (i: nat)
    ensures Fallback(w, r, candidates).Answered?
       <==> exists k :: 0 <= k < |candidates| && Answers(w, r, candidates[k], k)
    ensures Fallback(w, r, candidates).Answered? ==>
      FirstAnswer(w, r, candidates, i) && Fallback(w, r, candidates).selected == candidates[i]
  {
    i := AnsweredBy(w, r, candidates);
  }

  // ------------------------------------------------------- what each candidate leaves behind

  /** A reply whose text the schema rejects. */
  predicate Rejected(w: World, r: Request, reply: Reply) {
    reply.Replied? && r.structured && w.validate(reply.response.text) != []
  }

  predicate LetThrough(w: World, c: ProviderModel, i: nat) {
    && (c.connection == "" || c.concurrencyLimit == 0 || w.gates.slot(i))
    && (c.connection == "" || c.requestQuota == 0 || w.gates.request(i))
  }

  /** The replies of candidate `i` in their order: none if a gate refuses it, and after a
      rejected first one a second one, to the corrected request. */
  function Replies(w: World, r: Request, c: ProviderModel, i: nat): seq<Reply> {
    var first := w.reply(i, 0, r.input);
    if !LetThrough(w, c, i) then []
    else if Rejected(w, r, first) then
      [first, w.reply(i, 1, CorrectiveInput(r.input, w.validate(first.response.text)))]
    else [first]
  }

  /** Every response is charged, whether or not its text is accepted. */
  function Charge(c: ProviderModel, reply: Reply): seq<Billable> {
    if reply.Replied? then [Billable(c, reply.response)] else []
  }

  function Fault(w: World, r: Request, c: ProviderModel, reply: Reply): seq<FailedAttempt> {
    if reply.Failed? then [ProviderFailed(c, reply.reason)]
    else if Rejected(w, r, reply) then [SchemaValidationFailed(c)]
    else []
  }

  function Charges(c: ProviderModel, replies: seq<Reply>): seq<Billable>
    decreases |replies|
  {
    if replies == [] then [] else Charges(c, replies[..|replies| - 1]) + Charge(c, replies[|replies| - 1])
  }

  function Faults(w: World, r: Request, c: ProviderModel, replies: seq<Reply>): seq<FailedAttempt>
    decreases |replies|
  {
    if replies == [] then [] else
      Faults(w, r, c, replies[..|replies| - 1]) + Fault(w, r, c, replies[|replies| - 1])
  }

  /** Why a gate refused the candidate, if one did. */
  function Refusal(w: World, c: ProviderModel, i: nat): seq<FailedAttempt> {
    if LetThrough(w, c, i) then []
    else if c.concurrencyLimit > 0 && !w.gates.slot(i) then [ConcurrencyLimitExceeded(c)]
    else [RequestQuotaExceeded(c)]
  }

  /** `after` has of candidate `i` all that it replied and all that went wrong, in order,
      and answers exactly with its last reply if that one is acceptable. */
  ghost predicate Leaves(w: World, r: Request, c: ProviderModel, i: nat, before: Outcome, after: Outcome) {
    var replies := Replies(w, r, c, i);
    var n := |replies|;
    && after.billable == before.billable + Charges(c, replies)
    && after.failed == before.failed + Refusal(w, c, i) + Faults(w, r, c, replies)
    && (after.Answered? <==> n > 0 && replies[n - 1].Replied? && !Rejected(w, r, replies[n - 1]))
    && (after.Answered? ==> after.response == replies[n - 1].response && after.selected == c)
    && (after.AllFailed? && n > 0 && Rejected(w, r, replies[n - 1]) ==>
          after.failures == w.validate(replies[n - 1].response.text))
    && (after.AllFailed? && n == 2 && replies[1].Failed? ==>
          after.failures == w.validate(replies[0].response.text))
    && (after.AllFailed? && Charges(c, replies) == [] && before.AllFailed? ==> after.failures == before.failures)
  }

  lemma {:induction false} OneReply(w: World, r: Request, c: ProviderModel, reply: Reply)
    ensures Charges(c, [reply]) == Charge(c, reply) && Faults(w, r, c, [reply]) == Fault(w, r, c, reply)
  {
    assert [reply][..0] == [];
    assert Charges(c, []) == [] && Faults(w, r, c, []) == [];
  }

  lemma {:induction false} TwoReplies(w: World, r: Request, c: ProviderModel, first: Reply, second: Reply)
    ensures Charges(c, [first, second]) == Charge(c, first) + Charge(c, second)
    ensures Faults(w, r, c, [first, second]) == Fault(w, r, c, first) + Fault(w, r, c, second)
  {
    OneReply(w, r, c, first);
    assert [first, second][..1] == [first];
  }

  lemma {:induction false} RefusedLeaves(w: World, r: Request, c: ProviderModel, i: nat, before: Outcome)
    requires before.AllFailed? && !LetThrough(w, c, i)
    ensures Leaves(w, r, c, i, before, Try(w, r, c, i, before))
  {
    assert Charges(c, []) == [] && Faults(w, r, c, []) == [];
  }

  lemma {:induction false} OnceLeaves(w: World, r: Request, c: ProviderModel, i: nat, before: Outcome)
    requires before.AllFailed? && LetThrough(w, c, i) && !Rejected(w, r, w.reply(i, 0, r.input))
    ensures Leaves(w, r, c, i, before, Try(w, r, c, i, before))
  {
    OneReply(w, r, c, w.reply(i, 0, r.input));
  }

  lemma {:induction false} TwiceLeaves(w: World, r: Request, c: ProviderModel, i: nat, before: Outcome)
    requires before.AllFailed? && LetThrough(w, c, i) && Rejected(w, r, w.reply(i, 0, r.input))
    ensures Leaves(w, r, c, i, before, Try(w, r, c, i, before))
  {
    var first := w.reply(i, 0, r.input);
    var failures := w.validate(first.response.text);
    var corrected := CorrectiveInput(r.input, failures);
    var second := w.reply(i, 1, corrected);
    TwoReplies(w, r, c, first, second);
    var next := AllFailed(before.failed + [SchemaValidationFailed(c)], before.billable + [Billable(c, first.response)],
                          failures);
    assert Try(w, r, c, i, before) == Attempts(w, r, c, i, 1, corrected, next);
    if Rejected(w, r, second) {
      var last := AllFailed(next.failed + [SchemaValidationFailed(c)], next.billable + [Billable(c, second.response)],
                            w.validate(second.response.text));
      assert Attempts(w, r, c, i, 1, corrected, next) == Attempts(w, r, c, i, 2, corrected, last) == last;
    }
  }

  /** What one candidate adds, from the gates, its replies and the validation alone. */
  lemma {:induction false} CandidateLeaves(w: World, r: Request, c: ProviderModel, i: nat, before: Outcome)
    requires before.AllFailed?
    ensures Leaves(w, r, c, i, before, Try(w, r, c, i, before))
  {
    if !LetThrough(w, c, i) {
      RefusedLeaves(w, r, c, i, before);
    } else if Rejected(w, r, w.reply(i, 0, r.input)) {
      TwiceLeaves(w, r, c, i, before);
    } else {
      OnceLeaves(w, r, c, i, before);
    }
  }

  /** What all the candidates of a list would add, one after another. */
  function AllCharges(w: World, r: Request, candidates: seq<ProviderModel>): seq<Billable>
    decreases |candidates|
  {
    if candidates == [] then [] else
      var n := |candidates| - 1;
      AllCharges(w, r, candidates[..n]) + Charges(candidates[n], Replies(w, r, candidates[n], n))
  }

  function AllFaults(w: World, r: Request, candidates: seq<ProviderModel>): seq<FailedAttempt>
    decreases |candidates|
  {
    if candidates == [] then [] else
      var n, c := |candidates| - 1, candidates[|candidates| - 1];
      AllFaults(w, r, candidates[..n]) + Refusal(w, c, n) + Faults(w, r, c, Replies(w, r, c, n))
  }

  lemma {:induction false} NoAnswerAddsAll(w: World, r: Request, candidates: seq<ProviderModel>)
    requires Fallback(w, r, candidates).AllFailed?
    ensures Fallback(w, r, candidates).billable == AllCharges(w, r, candidates)
    ensures Fallback(w, r, candidates).failed == AllFaults(w, r, candidates)
    decreases |candidates|
  {
    if candidates != [] {
      var n := |candidates| - 1;
      NoAnswerAddsAll(w, r, candidates[..n]);
      CandidateLeaves(w, r, candidates[n], n, Fallback(w, r, candidates[..n]));
    }
  }

  predicate AnsweredWith(replies: seq<Reply>, response: Response) {
    replies != [] && replies[|replies| - 1] == Replied(response)
  }

  /** The outcome of a list of which the first `tried` candidates were dispatched. */
  ghost predicate Tried(w: World, r: Request, candidates: seq<ProviderModel>, o: Outcome, tried: nat)
    requires tried <= |candidates|
  {
    && o.billable == AllCharges(w, r, candidates[..tried])
    && o.failed == AllFaults(w, r, candidates[..tried])
    && (o.AllFailed? ==> tried == |candidates|)
    && (o.Answered? ==>
          && tried > 0 && o.selected == candidates[tried - 1]
          && AnsweredWith(Replies(w, r, candidates[tried - 1], tried - 1), o.response))
  }

  lemma {:induction false} LastAnswers(w: World, r: Request, candidates: seq<ProviderModel>)
    requires candidates != [] && Fallback(w, r, candidates[..|candidates| - 1]).AllFailed?
    requires Fallback(w, r, candidates).Answered?
    ensures Tried(w, r, candidates, Fallback(w, r, candidates), |candidates|)
  {
    var n := |candidates| - 1;
    assert candidates[..|candidates|] == candidates;
    NoAnswerAddsAll(w, r, candidates[..n]);
    CandidateLeaves(w, r, candidates[n], n, Fallback(w, r, candidates[..n]));
  }

  lemma {:induction false} TriedOfPrefix(
      w: World, r: Request, candidates: seq<ProviderModel>, n: nat, o: Outcome, tried: nat)
    requires n <= |candidates| && tried <= n && o.Answered? && Tried(w, r, candidates[..n], o, tried)
    ensures Tried(w, r, candidates, o, tried)
  {
    assert candidates[..n][..tried] == candidates[..tried];
  }

  /** The loop leaves with the first candidate that answers. */
  lemma {:induction false} LeavesAtFirstAnswer(w: World, r: Request, candidates: seq<ProviderModel>, i: nat)
    requires FirstAnswer(w, r, candidates, i)
    ensures Fallback(w, r, candidates[..i]).AllFailed? && Fallback(w, r, candidates[..i + 1]).Answered?
    ensures Fallback(w, r, candidates) == Fallback(w, r, candidates[..i + 1])
  {
    assert forall k :: 0 <= k < i ==> candidates[..i][k] == candidates[k];
    var none := AnsweredBy(w, r, candidates[..i]);
    assert candidates[..i + 1][..i] == candidates[..i];
    TryAnswersIff(w, r, candidates[i], i, Fallback(w, r, candidates[..i]));
    AnsweredEarly(w, r, candidates, i + 1);
  }

  /** What the loop bills and reports as failed is exactly what the candidates it tried add,
      in order, rejected replies included: all of them if none answers, otherwise those up
      to the first that answers, and the response is the last reply of that one. */
  lemma {:induction false} FallbackTries(w: World, r: Request, candidates: seq<ProviderModel>) returns (tried: nat)
    ensures tried <= |candidates| && Tried(w, r, candidates, Fallback(w, r, candidates), tried)
    ensures Fallback(w, r, candidates).Answered? ==> tried > 0 && FirstAnswer(w, r, candidates, tried - 1)
  {
    if Fallback(w, r, candidates).AllFailed? {
      tried := |candidates|;
      assert candidates[..|candidates|] == candidates;
      NoAnswerAddsAll(w, r, candidates);
    } else {
      var i := AnsweredBy(w, r, candidates);
      tried := i + 1;
      LeavesAtFirstAnswer(w, r, candidates, i);
      assert candidates[..i + 1][..i] == candidates[..i];
      LastAnswers(w, r, candidates[..i + 1]);
      TriedOfPrefix(w, r, candidates, i + 1, Fallback(w, r, candidates), i + 1);
    }
  }

  // --------------------------------------------------------------------------- billing

  function DispatchCost(b: Billable): int {
    EstimateCost(b.response.inputTokens, b.response.outputTokens, b.candidate.inputPrice, b.candidate.outputPrice)
  }

  /** The cost of `_billable_dispatch_totals`. */
  function BilledCost(billable: seq<Billable>): int
    decreases |billable|
  {
    if billable == [] then 0 else BilledCost(billable[..|billable| - 1]) + DispatchCost(billable[|billable| - 1])
  }

  /** Its input and output tokens together. */
  function BilledTokens(billable: seq<Billable>): nat
    decreases |billable|
  {
    if billable == [] then 0 else
      var last := billable[|billable| - 1].response;
      BilledTokens(billable[..|billable| - 1]) + last.inputTokens + last.outputTokens
  }

  /** Nothing costs nothing; each dispatch adds its cost and all its tokens. */
  lemma {:induction false} BilledAppend(billable: seq<Billable>, b: Billable)
    ensures BilledCost([]) == 0 && BilledTokens([]) == 0
    ensures BilledCost(billable + [b]) == BilledCost(billable) + DispatchCost(b)
    ensures BilledTokens(billable + [b]) == BilledTokens(billable) + b.response.inputTokens + b.response.outputTokens
  {
    assert (billable + [b])[..|billable|] == billable;
  }

  /** The input of dispatch `j` to candidate `i`: the request's, or after a rejected text
      the corrected one. */
  function Sent(w: World, r: Request, i: nat, j: nat): Input {
    var first := w.reply(i, 0, r.input);
    if j > 0 && first.Replied? then CorrectiveInput(r.input, w.validate(first.response.text)) else r.input
  }

  /** What dispatch `j` to candidate `i` reports is at most what was estimated for it. */
  predicate DispatchWithin(w: World, r: Request, c: ProviderModel, i: nat, j: nat) {
    var reply := w.reply(i, j, Sent(w, r, i, j));
    reply.Replied? ==>
      reply.response.inputTokens <= InputLimit(r, j) && reply.response.outputTokens <= OutputLimit(r, c)
  }

  ghost predicate WithinEstimates(w: World, r: Request, candidates: seq<ProviderModel>) {
    forall i, j :: 0 <= i < |candidates| && 0 <= j < Dispatches(r) ==> DispatchWithin(w, r, candidates[i], i, j)
  }

  /** What dispatches `j` and later of a candidate may cost. */
  function Remaining(r: Request, c: ProviderModel, j: nat): int
    requires j <= Dispatches(r)
    decreases Dispatches(r) - j
  {
    if j == Dispatches(r) then 0 else DispatchEstimate(r, c, j) + Remaining(r, c, j + 1)
  }

  function RemainingTokens(r: Request, c: ProviderModel, j: nat): nat
    requires j <= Dispatches(r)
    decreases Dispatches(r) - j
  {
    if j == Dispatches(r) then 0 else InputLimit(r, j) + OutputLimit(r, c) + RemainingTokens(r, c, j + 1)
  }

  lemma {:induction false} RemainingIsEstimate(r: Request, c: ProviderModel)
    ensures Remaining(r, c, 0) == Estimate(r, c)
    ensures RemainingTokens(r, c, 0)
         == if r.structured then CandidateTokens(r, c) * 2 + CORRECTIVE_RETRY_TOKEN_RESERVE else CandidateTokens(r, c)
  {
    if r.structured {
      assert Remaining(r, c, 2) == 0 && RemainingTokens(r, c, 2) == 0;
      assert Remaining(r, c, 1) == DispatchEstimate(r, c, 1);
      assert RemainingTokens(r, c, 1) == InputLimit(r, 1) + OutputLimit(r, c);
    } else {
      assert Remaining(r, c, 1) == 0 && RemainingTokens(r, c, 1) == 0;
    }
  }

  lemma {:induction false} RemainingNotNegative(r: Request, c: ProviderModel, j: nat)
    requires j <= Dispatches(r) && Priced([c])
    ensures Remaining(r, c, j) >= 0
    decreases Dispatches(r) - j
  {
    if j < Dispatches(r) {
      assert [c][0] == c;
      CostMonotone(InputLimit(r, j), OutputLimit(r, c), InputLimit(r, j), OutputLimit(r, c), c.inputPrice,
                   c.outputPrice);
      RemainingNotNegative(r, c, j + 1);
    }
  }

  /** One dispatch costs at most its estimate. */
  lemma {:induction false} DispatchWithinEstimate(r: Request, c: ProviderModel, response: Response, j: nat)
    requires Priced([c])
    requires response.inputTokens <= InputLimit(r, j) && response.outputTokens <= OutputLimit(r, c)
    ensures 0 <= DispatchCost(Billable(c, response)) <= DispatchEstimate(r, c, j)
  {
    assert [c][0] == c;
    CostMonotone(response.inputTokens, response.outputTokens, InputLimit(r, j), OutputLimit(r, c), c.inputPrice,
                 c.outputPrice);
  }

  /** `after` adds to `before` at most `count` dispatches, all of `c`, within the amounts. */
  ghost predicate Bills(
      before: seq<Billable>, after: seq<Billable>, c: ProviderModel, count: nat, cost: int, tokens: int) {
    && before <= after && |after| - |before| <= count
    && (forall k :: |before| <= k < |after| ==> after[k].candidate == c)
    && 0 <= BilledCost(after) - BilledCost(before) <= cost
    && 0 <= BilledTokens(after) - BilledTokens(before) <= tokens
  }

  lemma {:induction false} BillsOne(r: Request, before: seq<Billable>, c: ProviderModel, response: Response, j: nat)
    requires Priced([c])
    requires response.inputTokens <= InputLimit(r, j) && response.outputTokens <= OutputLimit(r, c)
    ensures Bills(before, before + [Billable(c, response)], c, 1, DispatchEstimate(r, c, j),
                  InputLimit(r, j) + OutputLimit(r, c))
  {
    DispatchWithinEstimate(r, c, response, j);
    BilledAppend(before, Billable(c, response));
  }

  lemma {:induction false} BillsThen(x: seq<Billable>, y: seq<Billable>, z: seq<Billable>, c: ProviderModel,
                  n: nat, m: nat, cost: int, cost': int, tokens: int, tokens': int)
    requires Bills(x, y, c, n, cost, tokens) && Bills(y, z, c, m, cost', tokens')
    ensures Bills(x, z, c, n + m, cost + cost', tokens + tokens')
  {
  }

  /** Dispatch `j` of `c` bills one response, and the rest of its dispatches `after`. */
  lemma {:induction false} BillsFirst(
      r: Request, before: seq<Billable>, after: seq<Billable>, c: ProviderModel, response: Response, j: nat)
    requires j < Dispatches(r) && Priced([c])
    requires response.inputTokens <= InputLimit(r, j) && response.outputTokens <= OutputLimit(r, c)
    requires Bills(before + [Billable(c, response)], after, c, Dispatches(r) - j - 1,
                   Remaining(r, c, j + 1), RemainingTokens(r, c, j + 1))
    ensures Bills(before, after, c, Dispatches(r) - j, Remaining(r, c, j), RemainingTokens(r, c, j))
  {
    BillsOne(r, before, c, response, j);
    BillsThen(before, before + [Billable(c, response)], after, c,
              1, Dispatches(r) - j - 1, DispatchEstimate(r, c, j), Remaining(r, c, j + 1),
              InputLimit(r, j) + OutputLimit(r, c), RemainingTokens(r, c, j + 1));
  }

  lemma {:induction false} BillsNothing(r: Request, billable: seq<Billable>, c: ProviderModel, j: nat)
    requires j <= Dispatches(r) && Priced([c])
    ensures Bills(billable, billable, c, Dispatches(r) - j, Remaining(r, c, j), RemainingTokens(r, c, j))
  {
    RemainingNotNegative(r, c, j);
  }
  /** A candidate's dispatches bill at most what remains of its estimate, and there are
      at most two of them. */
  lemma {:induction false} AttemptsBill(
      w: World, r: Request, candidates: seq<ProviderModel>, i: nat, j: nat, input: Input, before: Outcome)
    requires i < |candidates| && Priced([candidates[i]]) && WithinEstimates(w, r, candidates)
    requires before.AllFailed? && j <= Dispatches(r) && (j < Dispatches(r) ==> input == Sent(w, r, i, j))
    ensures Bills(before.billable, Attempts(w, r, candidates[i], i, j, input, before).billable, candidates[i],
                  Dispatches(r) - j, Remaining(r, candidates[i], j), RemainingTokens(r, candidates[i], j))
    decreases Dispatches(r) - j
  {
    var c := candidates[i];
    if j < Dispatches(r) && w.reply(i, j, input).Replied? {
      var response := w.reply(i, j, input).response;
      var billed := before.billable + [Billable(c, response)];
      var failures := w.validate(response.text);
      assert DispatchWithin(w, r, c, i, j);
      if r.structured && failures != [] {
        var next := AllFailed(before.failed + [SchemaValidationFailed(c)], billed, failures);
        var corrected := if j == 0 then CorrectiveInput(r.input, failures) else input;
        AttemptsBill(w, r, candidates, i, j + 1, corrected, next);
        BillsFirst(r, before.billable, Attempts(w, r, c, i, j + 1, corrected, next).billable, c, response, j);
      } else {
        BillsNothing(r, billed, c, j + 1);
        BillsFirst(r, before.billable, billed, c, response, j);
      }
    } else {
      BillsNothing(r, before.billable, c, j);
    }
  }

  lemma {:induction false} TryBills(w: World, r: Request, candidates: seq<ProviderModel>, i: nat, before: Outcome)
    requires i < |candidates| && Priced([candidates[i]]) && WithinEstimates(w, r, candidates) && before.AllFailed?
    ensures Bills(before.billable, Try(w, r, candidates[i], i, before).billable, candidates[i],
                  Dispatches(r), Estimate(r, candidates[i]), RemainingTokens(r, candidates[i], 0))
  {
    RemainingIsEstimate(r, candidates[i]);
    RemainingNotNegative(r, candidates[i], 0);
    AttemptsBill(w, r, candidates, i, 0, r.input, before);
  }

  lemma {:induction false} UnstructuredBillsOnce(w: World, r: Request, candidates: seq<ProviderModel>)
    requires !r.structured
    ensures Fallback(w, r, candidates).AllFailed? ==> Fallback(w, r, candidates).billable == []
    ensures Fallback(w, r, candidates).Answered? ==>
      Fallback(w, r, candidates).billable
        == [Billable(Fallback(w, r, candidates).selected, Fallback(w, r, candidates).response)]
    decreases |candidates|
  {
    if candidates != [] { UnstructuredBillsOnce(w, r, candidates[..|candidates| - 1]); }
  }

  ghost predicate Within(r: Request, candidates: seq<ProviderModel>, billable: seq<Billable>) {
    && 0 <= BilledCost(billable) <= Reservation(r, candidates)
    && BilledTokens(billable) <= EstimateTokens(r, candidates)
  }

  /** A structured reservation grows by the whole of one more candidate's estimate. */
  lemma {:induction false} StructuredStep(
      r: Request, candidates: seq<ProviderModel>, before: seq<Billable>, after: seq<Billable>)
    requires candidates != [] && r.structured
    requires Within(r, candidates[..|candidates| - 1], before)
    requires var c := candidates[|candidates| - 1]; Bills(before, after, c, 2, Estimate(r, c), RemainingTokens(r, c, 0))
    ensures Within(r, candidates, after)
  {
    RemainingIsEstimate(r, candidates[|candidates| - 1]);
  }

  /** An unstructured one covers the only candidate that bills. */
  lemma {:induction false} UnstructuredStep(r: Request, candidates: seq<ProviderModel>, after: seq<Billable>)
    requires candidates != [] && !r.structured
    requires var c := candidates[|candidates| - 1]; Bills([], after, c, 1, Estimate(r, c), RemainingTokens(r, c, 0))
    ensures Within(r, candidates, after)
  {
    RemainingIsEstimate(r, candidates[|candidates| - 1]);
  }

  lemma {:induction false} ReservedGrows(r: Request, candidates: seq<ProviderModel>)
    requires candidates != [] && Priced(candidates)
    ensures Reservation(r, candidates[..|candidates| - 1]) <= Reservation(r, candidates)
    ensures EstimateTokens(r, candidates[..|candidates| - 1]) <= EstimateTokens(r, candidates)
  {
    var last := candidates[|candidates| - 1];
    assert [last][0] == last;
    EstimateNotNegative(r, last);
  }

  lemma {:induction false} EstimatesOfPrefix(w: World, r: Request, candidates: seq<ProviderModel>)
    requires candidates != [] && WithinEstimates(w, r, candidates)
    ensures WithinEstimates(w, r, candidates[..|candidates| - 1])
  {
  }

  lemma {:induction false} StepBills(w: World, r: Request, candidates: seq<ProviderModel>, before: Outcome)
    requires candidates != [] && Priced(candidates) && WithinEstimates(w, r, candidates)
    requires before.AllFailed? && Within(r, candidates[..|candidates| - 1], before.billable)
    requires r.structured || before.billable == []
    ensures Within(r, candidates, Try(w, r, candidates[|candidates| - 1], |candidates| - 1, before).billable)
  {
    var n := |candidates| - 1;
    assert [candidates[n]][0] == candidates[n];
    TryBills(w, r, candidates, n, before);
    var after := Try(w, r, candidates[n], n, before).billable;
    if r.structured {
      StructuredStep(r, candidates, before.billable, after);
    } else {
      UnstructuredStep(r, candidates, after);
    }
  }

  /** After any list of candidates, on either exit, what was dispatched and accepted for
      billing is within the reservation and the token estimate for that list. */
  lemma {:induction false} FallbackBills(w: World, r: Request, candidates: seq<ProviderModel>)
    requires Priced(candidates) && WithinEstimates(w, r, candidates)
    ensures Within(r, candidates, Fallback(w, r, candidates).billable)
    decreases |candidates|
  {
    if candidates != [] {
      var init := candidates[..|candidates| - 1];
      EstimatesOfPrefix(w, r, candidates);
      FallbackBills(w, r, init);
      var before := Fallback(w, r, init);
      if before.AllFailed? {
        if !r.structured { UnstructuredBillsOnce(w, r, init); }
        StepBills(w, r, candidates, before);
      } else {
        ReservedGrows(r, candidates);
      }
    }
  }

  // ------------------------------------------------------------------------- accounting

  /** `_billable_response_usage_events`: one event per billable dispatch. */
  function UsageEvents(billable: seq<Billable>, request: string, key: string): seq<UsageLedger.Event>
    decreases |billable|
  {
    if billable == [] then [] else
      UsageEvents(billable[..|billable| - 1], request, key)
      + [UsageLedger.Event(request, key, DispatchCost(billable[|billable| - 1]))]
  }

  datatype Accounting =
    | SettleWith(cost: int, tokens: nat, events: seq<UsageLedger.Event>)
    | ReleaseAll

  /** Both exits of a response request: settle what is billable, else release. */
  function Account(o: Outcome, request: string, key: string): Accounting {
    if o.Answered? || o.billable != [] then
      SettleWith(BilledCost(o.billable), BilledTokens(o.billable), UsageEvents(o.billable, request, key))
    else ReleaseAll
  }

  /** Event `i` is what dispatch `i` cost at its own candidate's prices, and the amount is
      the sum of them. */
  lemma {:induction false} EventsAddUp(billable: seq<Billable>, request: string, key: string)
    ensures var events := UsageEvents(billable, request, key);
      && UsageLedger.EventTotal(events, key) == BilledCost(billable)
      && |events| == |billable|
      && forall i :: 0 <= i < |events| ==>
           var b := billable[i];
           events[i] == UsageLedger.Event(request, key, EstimateCost(
             b.response.inputTokens, b.response.outputTokens, b.candidate.inputPrice, b.candidate.outputPrice))
    decreases |billable|
  {
    if billable != [] {
      EventsAddUp(billable[..|billable| - 1], request, key);
      var events := UsageEvents(billable, request, key);
      assert events[..|events| - 1] == UsageEvents(billable[..|billable| - 1], request, key);
    }
  }

  lemma {:induction false} AnswerIsCharged(w: World, r: Request, candidates: seq<ProviderModel>, tried: nat)
    requires tried <= |candidates| && Tried(w, r, candidates, Fallback(w, r, candidates), tried)
    requires Fallback(w, r, candidates).Answered?
    ensures AllCharges(w, r, candidates[..tried]) != []
  {
    var c := candidates[tried - 1];
    assert candidates[..tried][..tried - 1] == candidates[..tried - 1];
    assert Charges(c, Replies(w, r, c, tried - 1)) != [];
  }

  /** A request is settled exactly if some candidate that was tried replied, and then with
      one event per reply, each at its own candidate's prices; otherwise it is released. */
  lemma {:induction false} EveryReplyIsSettled(
      w: World, r: Request, candidates: seq<ProviderModel>, request: string, key: string)
    returns (tried: nat)
    ensures tried <= |candidates| && Tried(w, r, candidates, Fallback(w, r, candidates), tried)
    ensures var charged := AllCharges(w, r, candidates[..tried]);
            var accounting := Account(Fallback(w, r, candidates), request, key);
      && (accounting.ReleaseAll? <==> charged == [])
      && (accounting.SettleWith? ==>
            && accounting.cost == UsageLedger.EventTotal(accounting.events, key)
            && |accounting.events| == |charged|
            && forall i :: 0 <= i < |charged| ==>
                 var b := charged[i];
                 accounting.events[i] == UsageLedger.Event(request, key, EstimateCost(
                   b.response.inputTokens, b.response.outputTokens, b.candidate.inputPrice, b.candidate.outputPrice)))
  {
    tried := FallbackTries(w, r, candidates);
    EventsAddUp(AllCharges(w, r, candidates[..tried]), request, key);
    if Fallback(w, r, candidates).Answered? { AnswerIsCharged(w, r, candidates, tried); }
  }

  /** What a request settles with is within what it reserved and, as an amount, the sum of
      its usage events. */
  ghost predicate SettlesWithin(
      accounting: Accounting, reservation: int, tokens: nat, r: Request, request: string, key: string) {
    accounting.SettleWith? ==>
      && 0 <= accounting.cost <= reservation && !Exceeds(r.maxCostUsd, accounting.cost)
      && accounting.tokens <= tokens
      && UsageLedger.HonestSettle(UsageLedger.DoSettle(request, key, accounting.cost, accounting.events, true))
  }

  lemma {:induction false} SettlesWithinPlan(
      r: Request, o: Outcome, reservation: int, tokens: nat, request: string, key: string)
    requires 0 <= BilledCost(o.billable) <= reservation && BilledTokens(o.billable) <= tokens
    requires !Exceeds(r.maxCostUsd, reservation)
    ensures SettlesWithin(Account(o, request, key), reservation, tokens, r, request, key)
  {
    EventsAddUp(o.billable, request, key);
  }

  lemma {:induction false} PlanIsPriced(r: Request, candidates: seq<ProviderModel>)
    requires Priced(candidates) && Plan(r, candidates).BudgetPlan?
    ensures Priced(Plan(r, candidates).eligible)
  {
    var eligible := Plan(r, candidates).eligible;
    FittingFits(r, candidates);
    forall i | 0 <= i < |eligible| ensures eligible[i].inputPrice >= 0.0 && eligible[i].outputPrice >= 0.0 {
      assert eligible[i] in candidates;
    }
  }

  /** Billed at most reserved: whatever the providers, gates and validation do, if each
      dispatch reports at most its estimate then a request settles at most its reservation,
      its token estimate and its `max_cost_usd`, with events that add up to the amount. */
  lemma {:induction false} BilledAtMostReserved(
      w: World, r: Request, candidates: seq<ProviderModel>, request: string, key: string)
    requires Priced(candidates) && Plan(r, candidates).BudgetPlan?
    requires WithinEstimates(w, r, Plan(r, candidates).eligible)
    ensures var plan := Plan(r, candidates);
      SettlesWithin(Account(Fallback(w, r, plan.eligible), request, key), plan.reservation,
                    EstimateTokens(r, plan.eligible), r, request, key)
  {
    var plan := Plan(r, candidates);
    PlanIsPriced(r, candidates);
    PlanWithinMaxCost(r, candidates);
    FallbackBills(w, r, plan.eligible);
    SettlesWithinPlan(r, Fallback(w, r, plan.eligible), plan.reservation, EstimateTokens(r, plan.eligible), request,
                      key);
  }

  /** Providers count as the gateway does: they report at most the tokens of what was sent
      and at most the output limit; and failures come from validation. */
  ghost predicate ReportsCounted(w: World, r: Request, candidates: seq<ProviderModel>) {
    && (forall i, j :: 0 <= i < |candidates| && 0 <= j < Dispatches(r) ==> DispatchCounted(w, r, candidates[i], i, j))
    && forall text :: FromValidation(w.validate(text))
  }

  predicate DispatchCounted(w: World, r: Request, c: ProviderModel, i: nat, j: nat) {
    var input := Sent(w, r, i, j);
    var reply := w.reply(i, j, input);
    reply.Replied? ==>
      && reply.response.inputTokens <= CountTokens(ExtractText(input))
      && reply.response.outputTokens <= OutputLimit(r, c)
  }

  /** The reserve of 320 tokens makes such reports stay within the estimates, the
      corrective dispatches included. */
  lemma {:induction false} CountedReportsAreWithin(w: World, r: Request, candidates: seq<ProviderModel>)
    requires ReportsCounted(w, r, candidates)
    ensures WithinEstimates(w, r, candidates)
  {
    forall i, j | 0 <= i < |candidates| && 0 <= j < Dispatches(r) ensures DispatchWithin(w, r, candidates[i], i, j) {
      assert DispatchCounted(w, r, candidates[i], i, j);
      var first := w.reply(i, 0, r.input);
      if first.Replied? { CorrectiveReserveIsEnough(r.input, w.validate(first.response.text)); }
    }
  }

  lemma {:induction false} CountedReportsBillAtMostReserved(
      w: World, r: Request, candidates: seq<ProviderModel>, request: string, key: string)
    requires Priced(candidates) && Plan(r, candidates).BudgetPlan?
    requires ReportsCounted(w, r, Plan(r, candidates).eligible)
    ensures var plan := Plan(r, candidates);
      SettlesWithin(Account(Fallback(w, r, plan.eligible), request, key), plan.reservation,
                    EstimateTokens(r, plan.eligible), r, request, key)
  {
    CountedReportsAreWithin(w, r, Plan(r, candidates).eligible);
    BilledAtMostReserved(w, r, candidates, request, key);
  }

  // ---------------------------------------------------------------- how many dispatches

  function ProviderFailures(failed: seq<FailedAttempt>): nat
    decreases |failed|
  {
    if failed == [] then 0 else
      ProviderFailures(failed[..|failed| - 1]) + if failed[|failed| - 1].ProviderFailed? then 1 else 0
  }

  /** The dispatches behind an outcome: each was billed or failed. */
  function Dispatched(o: Outcome): nat { |o.billable| + ProviderFailures(o.failed) }

  lemma {:induction false} FailuresAppend(failed: seq<FailedAttempt>, attempt: FailedAttempt)
    ensures ProviderFailures(failed + [attempt]) == ProviderFailures(failed) + if attempt.ProviderFailed? then 1 else 0
  {
    assert (failed + [attempt])[..|failed|] == failed;
  }

  /** `after` adds to `before` at most `count` dispatches, and nothing but of `c`. */
  ghost predicate Adds(before: Outcome, after: Outcome, c: ProviderModel, count: nat) {
    && before.billable <= after.billable && before.failed <= after.failed
    && (forall k :: |before.billable| <= k < |after.billable| ==> after.billable[k].candidate == c)
    && (forall k :: |before.failed| <= k < |after.failed| ==> after.failed[k].candidate == c)
    && Dispatched(before) <= Dispatched(after) <= Dispatched(before) + count
    && |after.billable| - |before.billable| <= count
  }

  lemma {:induction false} AddsFailed(before: Outcome, c: ProviderModel, attempt: FailedAttempt, count: nat)
    requires before.AllFailed? && attempt.candidate == c && (attempt.ProviderFailed? ==> count > 0)
    ensures Adds(before, WithFailed(before, attempt), c, count)
  {
    FailuresAppend(before.failed, attempt);
  }

  lemma {:induction false} AddsReplied(
      before: Outcome, after: Outcome, c: ProviderModel, response: Response, count: nat)
    requires after.billable == before.billable + [Billable(c, response)] && count > 0
    requires after.failed == before.failed || after.failed == before.failed + [SchemaValidationFailed(c)]
    ensures Adds(before, after, c, count)
  {
    assert before.billable <= after.billable && |after.billable| == |before.billable| + 1;
    if after.failed != before.failed {
      FailuresAppend(before.failed, SchemaValidationFailed(c));
      assert before.failed <= after.failed && |after.failed| == |before.failed| + 1;
    }
  }

  lemma {:induction false} AddsThen(x: Outcome, y: Outcome, z: Outcome, c: ProviderModel, n: nat, m: nat)
    requires Adds(x, y, c, n) && Adds(y, z, c, m)
    ensures Adds(x, z, c, n + m)
  {
  }

  lemma {:induction false} AttemptsAdd(
      w: World, r: Request, c: ProviderModel, i: nat, j: nat, input: Input, before: Outcome)
    requires before.AllFailed? && j <= Dispatches(r)
    ensures Adds(before, Attempts(w, r, c, i, j, input, before), c, Dispatches(r) - j)
    decreases Dispatches(r) - j
  {
    if j < Dispatches(r) {
      match w.reply(i, j, input)
      case Failed(reason) => AddsFailed(before, c, ProviderFailed(c, reason), Dispatches(r) - j);
      case Replied(response) =>
        var failures := w.validate(response.text);
        var billable := before.billable + [Billable(c, response)];
        if r.structured && failures != [] {
          var next := AllFailed(before.failed + [SchemaValidationFailed(c)], billable, failures);
          var corrected := if j == 0 then CorrectiveInput(r.input, failures) else input;
          AddsReplied(before, next, c, response, 1);
          AttemptsAdd(w, r, c, i, j + 1, corrected, next);
          AddsThen(before, next, Attempts(w, r, c, i, j + 1, corrected, next), c, 1, Dispatches(r) - j - 1);
        } else {
          AddsReplied(before, Answered(response, c, before.failed, billable), c, response, Dispatches(r) - j);
        }
    }
  }

  /** Whatever providers report, each candidate is dispatched at most as often as was
      reserved for it, failed dispatches included: once, or twice with a schema.  What it
      adds stands after what the candidates before it left. */
  lemma {:induction false} EachCandidateBillsAtMostTwice(w: World, r: Request, candidates: seq<ProviderModel>)
    requires candidates != []
    ensures Adds(Fallback(w, r, candidates[..|candidates| - 1]), Fallback(w, r, candidates),
                 candidates[|candidates| - 1], Dispatches(r))
  {
    var n := |candidates| - 1;
    var before, c := Fallback(w, r, candidates[..n]), candidates[n];
    if before.AllFailed? {
      if SlotRefused(w.gates, c, n) {
        AddsFailed(before, c, ConcurrencyLimitExceeded(c), Dispatches(r));
      } else if RequestRefused(w.gates, c, n) {
        AddsFailed(before, c, RequestQuotaExceeded(c), Dispatches(r));
      } else {
        AttemptsAdd(w, r, c, n, 0, r.input, before);
      }
    }
  }

  // --------------------------------------------------------------- the streaming loop

  /** `_dispatch_response_stream_with_fallback`: the same gates; candidate `i` starts a
      stream, or fails with a reason before its first event. */
  datatype StreamWorld = StreamWorld(gates: Gates, startFailure: nat -> Option<string>)

  datatype StreamOutcome =
    | Started(selected: ProviderModel, failed: seq<FailedAttempt>)
    | NoneStarted(failed: seq<FailedAttempt>)

  /** Why candidate `i` does not start, if it does not. */
  function StartRefusal(w: StreamWorld, c: ProviderModel, i: nat): Option<FailedAttempt> {
    if SlotRefused(w.gates, c, i) then Some(ConcurrencyLimitExceeded(c))
    else if RequestRefused(w.gates, c, i) then Some(RequestQuotaExceeded(c))
    else match w.startFailure(i)
      case Some(reason) => Some(ProviderFailed(c, reason))
      case None => None
  }

  function StartFirst(w: StreamWorld, candidates: seq<ProviderModel>): StreamOutcome
    decreases |candidates|
  {
    if candidates == [] then NoneStarted([]) else
      var n := |candidates| - 1;
      match StartFirst(w, candidates[..n])
      case Started(c, failed) => Started(c, failed)
      case NoneStarted(failed) =>
        match StartRefusal(w, candidates[n], n)
        case Some(attempt) => NoneStarted(failed + [attempt])
        case None => Started(candidates[n], failed)
  }

  lemma {:induction false} StartedEarly(w: StreamWorld, candidates: seq<ProviderModel>, n: nat)
    requires n <= |candidates| && StartFirst(w, candidates[..n]).Started?
    ensures StartFirst(w, candidates) == StartFirst(w, candidates[..n])
    decreases |candidates|
  {
    if n == |candidates| {
      assert candidates[..n] == candidates;
    } else {
      assert candidates[..|candidates| - 1][..n] == candidates[..n];
      StartedEarly(w, candidates[..|candidates| - 1], n);
    }
  }

  method DispatchStreamWithFallback(w: StreamWorld, candidates: seq<ProviderModel>) returns (outcome: StreamOutcome)
    ensures outcome == StartFirst(w, candidates)
  {
    var failed := [];
    for i := 0 to |candidates|
      invariant StartFirst(w, candidates[..i]) == NoneStarted(failed)
    {
      var candidate := candidates[i];
      assert candidates[..i + 1][..i] == candidates[..i];
      if candidate.connection != "" && candidate.concurrencyLimit > 0 && !w.gates.slot(i) {
        failed := failed + [ConcurrencyLimitExceeded(candidate)];
        continue;
      }
      if candidate.connection != "" && candidate.requestQuota > 0 && !w.gates.request(i) {
        failed := failed + [RequestQuotaExceeded(candidate)];
        continue;
      }
      var failure := w.startFailure(i);
      if failure.None? {
        StartedEarly(w, candidates, i + 1);
        return Started(candidate, failed);
      }
      failed := failed + [ProviderFailed(candidate, failure.value)];
    }
    assert candidates[..|candidates|] == candidates;
    return NoneStarted(failed);
  }

  /** The stream is the first candidate's that starts, and there is one for each candidate
      before it a failed attempt with its own reason; none starts exactly when all have one. */
  lemma {:induction false} FirstStartingCandidateStreams(w: StreamWorld, candidates: seq<ProviderModel>)
    ensures var o := StartFirst(w, candidates);
      && |o.failed| <= |candidates|
      && (forall k :: 0 <= k < |o.failed| ==> StartRefusal(w, candidates[k], k) == Some(o.failed[k]))
      && (o.NoneStarted? ==> |o.failed| == |candidates|)
      && (o.Started? ==> && |o.failed| < |candidates| && o.selected == candidates[|o.failed|]
                         && StartRefusal(w, candidates[|o.failed|], |o.failed|) == None)
    decreases |candidates|
  {
    if candidates != [] { FirstStartingCandidateStreams(w, candidates[..|candidates| - 1]); }
  }

  function FailureOf(reply: Reply): Option<string> {
    if reply.Failed? then Some(reply.reason) else None
  }

  /** A stream starts where a dispatch of the request would have replied, and otherwise
      fails with its reason, for each candidate that the gates let through. */
  predicate StartsLike(stream: StreamWorld, w: World, r: Request, c: ProviderModel, i: nat) {
    SlotRefused(w.gates, c, i) || RequestRefused(w.gates, c, i)
    || stream.startFailure(i) == FailureOf(w.reply(i, 0, r.input))
  }

  /** The two loops are separate code.  Without a schema, and behind the same gates, they
      choose alike: same candidate, same failed attempts. */
  lemma {:induction false} StreamingChoosesAlike(
      stream: StreamWorld, w: World, r: Request, candidates: seq<ProviderModel>)
    requires !r.structured && stream.gates == w.gates
    requires forall i :: 0 <= i < |candidates| ==> StartsLike(stream, w, r, candidates[i], i)
    ensures var blocking, started := Fallback(w, r, candidates), StartFirst(stream, candidates);
      && started.failed == blocking.failed
      && (started.Started? <==> blocking.Answered?)
      && (started.Started? ==> started.selected == blocking.selected)
    decreases |candidates|
  {
    if candidates != [] {
      var init := candidates[..|candidates| - 1];
      assert forall i :: 0 <= i < |init| ==> candidates[i] == init[i];
      StreamingChoosesAlike(stream, w, r, init);
      assert StartsLike(stream, w, r, candidates[|init|], |init|);
    }
  }
}
