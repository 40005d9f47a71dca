/** The token and request quotas of one API key: the Lua scripts of
    mixapi/runtime/quota.py.  No key here has a TTL. */
module TokenQuota {
  import opened Prelude

  type Id = string

  datatype Store = Store(actual: int, reserved: int, reservations: map<Id, int>, requests: int)

  const EMPTY := Store(0, 0, map[], 0)

  /** The configured token and request limits. */
  datatype Limits = Limits(tokens: int, requests: int)

  datatype Call =
    | ReserveTokens(id: Id, amount: int)
    | ReconcileTokens(id: Id, actual: int)
    | ReleaseTokens(id: Id)
    | ReserveRequest

  function Step(l: Limits, s: Store, c: Call): (r: (Store, bool)) {
    match c
    case ReserveTokens(id, amount) =>
      if s.actual + s.reserved + amount > l.tokens then (s, false)
      else (s.(reserved := s.reserved + amount, reservations := s.reservations[id := amount]), true)
    case ReconcileTokens(id, actual) =>
      if id !in s.reservations then (s, false)
      else (s.(actual := s.actual + actual, reserved := s.reserved - s.reservations[id],
               reservations := s.reservations - {id}), true)
    case ReleaseTokens(id) =>
      if id !in s.reservations then (s, false)
      else (s.(reserved := s.reserved - s.reservations[id], reservations := s.reservations - {id}), true)
    case ReserveRequest =>
      if s.requests >= l.requests then (s, false) else (s.(requests := s.requests + 1), true)
  }

  function Run(l: Limits, s: Store, calls: seq<Call>): Store
    decreases |calls|
  {
    if calls == [] then s else Run(l, Step(l, s, calls[0]).0, calls[1..])
  }

  /** Ids are fresh, amounts are not negative, and what a request used is at most what
      it reserved. */
  predicate Honest(l: Limits, s: Store, calls: seq<Call>)
    decreases |calls|
  {
    calls == [] ||
    (&& match calls[0] {
          case ReserveTokens(id, amount) => id !in s.reservations && amount >= 0
          case ReconcileTokens(id, actual) => id in s.reservations ==> 0 <= actual <= s.reservations[id]
          case _ => true
        }
     && Honest(l, Step(l, s, calls[0]).0, calls[1..]))
  }

  ghost predicate Inv(l: Limits, s: Store) {
    && s.reserved == Total(s.reservations)
    && (forall id :: id in s.reservations ==> s.reservations[id] >= 0)
    && 0 <= s.actual && s.actual + s.reserved <= Max(l.tokens, 0)
    && 0 <= s.requests <= Max(l.requests, 0)
  }

  lemma {:induction false} StepKeeps(l: Limits, s: Store, c: Call)
    requires Inv(l, s) && Honest(l, s, [c])
    ensures Inv(l, Step(l, s, c).0)
  {
    match c
    case ReserveTokens(id, amount) => TotalAdd(s.reservations, id, amount);
    case ReconcileTokens(id, actual) => if id in s.reservations { TotalRemove(s.reservations, id); }
    case ReleaseTokens(id) => if id in s.reservations { TotalRemove(s.reservations, id); }
    case ReserveRequest =>
  }

  /** Token safety: in every state tokens used plus tokens reserved stay within the
      limit, the reserved counter is the sum of the live reservations and never
      negative, and no more requests are admitted than the request limit. */
  lemma {:induction false} QuotaHolds(l: Limits, s: Store, calls: seq<Call>)
    requires Inv(l, s) && Honest(l, s, calls)
    ensures Inv(l, Run(l, s, calls)) && Run(l, s, calls).reserved >= 0
    decreases |calls|
  {
    if calls == [] {
      TotalNonNegative(s.reservations);
    } else {
      StepKeeps(l, s, calls[0]);
      QuotaHolds(l, Step(l, s, calls[0]).0, calls[1..]);
    }
  }

  /** Reconciling a live reservation replaces what it held by what was used, releasing it just
      gives it back, and either of a reservation that is not live does nothing. */
  lemma {:induction false} FinishingReplaces(l: Limits, s: Store, id: Id, used: int)
    ensures var (reconciled, found) := Step(l, s, ReconcileTokens(id, used));
            var (released, held) := Step(l, s, ReleaseTokens(id));
      && (found <==> id in s.reservations) && (held <==> id in s.reservations)
      && (!found ==> reconciled == s && released == s)
      && (found ==>
            var amount := s.reservations[id];
            && reconciled.actual == s.actual + used && released.actual == s.actual
            && reconciled.reserved == s.reserved - amount && released.reserved == s.reserved - amount
            && reconciled.reservations == s.reservations - {id} && released.reservations == s.reservations - {id}
            && reconciled.requests == s.requests && released.requests == s.requests)
  {
  }

  /** The usage reported for reservations that were live when it was reported. */
  function UsageReported(l: Limits, s: Store, calls: seq<Call>): int
    decreases |calls|
  {
    if calls == [] then 0 else
      (if calls[0].ReconcileTokens? && calls[0].id in s.reservations then calls[0].actual else 0)
      + UsageReported(l, Step(l, s, calls[0]).0, calls[1..])
  }

  /** The calls of a run that admitted a request. */
  function RequestsAdmitted(l: Limits, s: Store, calls: seq<Call>): nat
    decreases |calls|
  {
    if calls == [] then 0 else
      (if calls[0].ReserveRequest? && s.requests < l.requests then 1 else 0)
      + RequestsAdmitted(l, Step(l, s, calls[0]).0, calls[1..])
  }

  /** Over every run the tokens used are those reported once for a live reservation, and the
      requests counted are those admitted. */
  lemma {:induction false} UsageAddsUp(l: Limits, s: Store, calls: seq<Call>)
    ensures Run(l, s, calls).actual == s.actual + UsageReported(l, s, calls)
    ensures Run(l, s, calls).requests == s.requests + RequestsAdmitted(l, s, calls)
    decreases |calls|
  {
    if calls != [] { UsageAddsUp(l, Step(l, s, calls[0]).0, calls[1..]); }
  }

  class TokenKeys {
    var actual: int
    var reserved: int
    var reservations: map<Id, int>
    var requests: int

    ghost function State(): Store
      reads this
    {
      Store(actual, reserved, reservations, requests)
    }

    constructor ()
      ensures State() == EMPTY
    {
      actual, reserved, reservations, requests := 0, 0, map[], 0;
    }

    method RunReserveTokens(l: Limits, id: Id, amount: int) returns (accepted: bool)
      modifies this
      ensures (State(), accepted) == Step(l, old(State()), ReserveTokens(id, amount))
    {
      if actual + reserved + amount > l.tokens { return false; }
      reservations := reservations[id := amount];
      reserved := reserved + amount;
      return true;
    }

    method RunReconcileTokens(l: Limits, id: Id, used: int) returns (done: bool)
      modifies this
      ensures (State(), done) == Step(l, old(State()), ReconcileTokens(id, used))
    {
      if id !in reservations { return false; }
      reserved := reserved - reservations[id];
      reservations := reservations - {id};
      actual := actual + used;
      return true;
    }

    method RunReleaseTokens(l: Limits, id: Id) returns (done: bool)
      modifies this
      ensures (State(), done) == Step(l, old(State()), ReleaseTokens(id))
    {
      if id !in reservations { return false; }
      reserved := reserved - reservations[id];
      reservations := reservations - {id};
      return true;
    }

    method RunReserveRequest(l: Limits) returns (accepted: bool)
      modifies this
      ensures (State(), accepted) == Step(l, old(State()), ReserveRequest)
    {
      if requests >= l.requests { return false; }
      requests := requests + 1;
      return true;
    }

    /** `_reserve_quotas` (mixapi/app.py:1356-1367): tokens first, given back when the
        request quota refuses. */
    method ReserveQuotas(l: Limits, id: Id, amount: int) returns (accepted: bool)
      requires id !in reservations
      modifies this
      ensures accepted <==> old(actual + reserved) + amount <= l.tokens && old(requests) < l.requests
      ensures State() == if accepted
                         then Store(old(actual), old(reserved) + amount, old(reservations)[id := amount],
                                    old(requests) + 1)
                         else old(State())
    {
      accepted := RunReserveTokens(l, id, amount);
      if accepted {
        accepted := RunReserveRequest(l);
        if !accepted {
          var _ := RunReleaseTokens(l, id);
          assert reservations == old(reservations);
        }
      }
    }
  }
}
