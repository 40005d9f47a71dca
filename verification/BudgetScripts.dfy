/** The three Lua scripts of mixapi/runtime/budget.py over the Redis keys of one
    API key.  A script is one atomic step; amounts are integers of 1e-8 USD. */
module BudgetScripts {
  import opened Prelude

  type Id = string

  /** `markers` are the unexpired `reconciled:<id>` keys. */
  datatype Store = Store(
    actual: Option<int>,
    reserved: int,
    reservations: map<Id, int>,
    markers: set<Id>)

  const EMPTY := Store(None, 0, map[], {})

  /** `_RESERVE`: `SETNX` keeps an actual value that is already there. */
  function Reserve(s: Store, id: Id, spendRead: int, amount: int, limit: int): (r: (Store, bool)) {
    var actual := if s.actual.Some? then s.actual.value else spendRead;
    if actual + s.reserved + amount > limit then
      (s.(actual := Some(actual)), false)
    else
      (s.(actual := Some(actual), reserved := s.reserved + amount, reservations := s.reservations[id := amount]), true)
  }

  /** `_RECONCILE`: the marker makes a repeated call do nothing. */
  function Reconcile(s: Store, id: Id, spendRead: int): (r: (Store, bool)) {
    if id in s.markers then
      (s, false)
    else
      var held := if id in s.reservations then s.reservations[id] else 0;
      (Store(Some(spendRead), s.reserved - held, s.reservations - {id}, s.markers + {id}), true)
  }

  /** `_RELEASE`. */
  function Release(s: Store, id: Id): (r: (Store, bool)) {
    if id !in s.reservations then
      (s, false)
    else
      (s.(reserved := s.reserved - s.reservations[id], reservations := s.reservations - {id}), true)
  }

  function ExpireMarker(s: Store, id: Id): Store { s.(markers := s.markers - {id}) }

  /** The reserved counter is the sum of the live reservation keys. */
  ghost predicate Conserved(s: Store) { s.reserved == Total(s.reservations) }

  datatype Call =
    | CallReserve(id: Id, spendRead: int, amount: int, limit: int)
    | CallReconcile(id: Id, spendRead: int)
    | CallRelease(id: Id)
    | CallExpire(id: Id)

  function Step(s: Store, c: Call): Store {
    match c
    case CallReserve(id, spendRead, amount, limit) => Reserve(s, id, spendRead, amount, limit).0
    case CallReconcile(id, spendRead) => Reconcile(s, id, spendRead).0
    case CallRelease(id) => Release(s, id).0
    case CallExpire(id) => ExpireMarker(s, id)
  }

  function Run(s: Store, calls: seq<Call>): Store
    decreases |calls|
  {
    if calls == [] then s else Run(Step(s, calls[0]), calls[1..])
  }

  /** Reservation ids come from `uuid4`: no call reserves an id whose key is live. */
  predicate FreshIds(s: Store, calls: seq<Call>)
    decreases |calls|
  {
    calls == [] ||
    (&& (calls[0].CallReserve? ==> calls[0].id !in s.reservations && calls[0].amount >= 0)
     && FreshIds(Step(s, calls[0]), calls[1..]))
  }

  lemma {:induction false} StepConserves(s: Store, c: Call)
    requires Conserved(s)
    requires c.CallReserve? ==> c.id !in s.reservations
    ensures Conserved(Step(s, c))
  {
    match c
    case CallReserve(id, spendRead, amount, limit) => TotalAdd(s.reservations, id, amount);
    case CallReconcile(id, spendRead) =>
      if id in s.reservations {
        TotalRemove(s.reservations, id);
      } else {
        assert s.reservations - {id} == s.reservations;
      }
    case CallRelease(id) => if id in s.reservations { TotalRemove(s.reservations, id); }
    case CallExpire(id) =>
  }

  /** Reservation conservation: after every sequence of script calls, marker
      expiry included, the counter is the sum of the live reservations. */
  lemma {:induction false} RunConserves(s: Store, calls: seq<Call>)
    requires Conserved(s) && FreshIds(s, calls)
    requires forall id :: id in s.reservations ==> s.reservations[id] >= 0
    ensures Conserved(Run(s, calls)) && Run(s, calls).reserved >= 0
    ensures forall id :: id in Run(s, calls).reservations ==> Run(s, calls).reservations[id] >= 0
    decreases |calls|
  {
    if calls == [] {
      TotalNonNegative(s.reservations);
    } else {
      StepConserves(s, calls[0]);
      RunConserves(Step(s, calls[0]), calls[1..]);
    }
  }

  /** A reused live id is what breaks conservation: `SET` replaces the amount that
      `INCRBY` already counted, so an accepted call conserves exactly when the id
      was not live or held nothing. */
  lemma {:induction false} AcceptedReserveConservesIff(s: Store, id: Id, spendRead: int, amount: int, limit: int)
    requires Conserved(s) && Reserve(s, id, spendRead, amount, limit).1
    ensures Conserved(Reserve(s, id, spendRead, amount, limit).0) <==> id !in s.reservations || s.reservations[id] == 0
  {
    var rest := s.reservations - {id};
    if id in s.reservations {
      TotalRemove(s.reservations, id);
    } else {
      assert rest == s.reservations;
    }
    TotalAdd(rest, id, amount);
    assert rest[id := amount] == s.reservations[id := amount];
  }

  lemma {:induction false} StaysTakenOut(s: Store, id: Id, calls: seq<Call>)
    requires id !in s.reservations && forall i :: 0 <= i < |calls| ==> calls[i].CallReserve? ==> calls[i].id != id
    ensures id !in Run(s, calls).reservations
    decreases |calls|
  {
    if calls != [] { StaysTakenOut(Step(s, calls[0]), id, calls[1..]); }
  }

  /** Once a reservation is finished, no later delivery subtracts anything: whatever
      scripts run in between, marker expiries included, as long as its id is not reserved
      again. */
  lemma {:induction false} NeverSubtractsAgain(s: Store, id: Id, first: int, calls: seq<Call>, later: int)
    requires forall i :: 0 <= i < |calls| ==> calls[i].CallReserve? ==> calls[i].id != id
    requires id !in s.markers || id !in s.reservations
    ensures var end := Run(Reconcile(s, id, first).0, calls);
            && Reconcile(end, id, later).0.reserved == end.reserved
            && Reconcile(end, id, later).0.reservations == end.reservations
  {
    StaysTakenOut(Reconcile(s, id, first).0, id, calls);
    var end := Run(Reconcile(s, id, first).0, calls);
    assert end.reservations - {id} == end.reservations;
  }

  /** The Redis keys themselves, changed in place by each script. */
  class RedisBudgetKeys {
    var actual: Option<int>
    var reserved: int
    var reservations: map<Id, int>
    var markers: set<Id>

    ghost function State(): Store
      reads this
    {
      Store(actual, reserved, reservations, markers)
    }

    constructor ()
      ensures State() == EMPTY
    {
      actual, reserved, reservations, markers := None, 0, map[], {};
    }

    method RunReserve(id: Id, spendRead: int, amount: int, limit: int) returns (accepted: bool)
      modifies this
      ensures (State(), accepted) == Reserve(old(State()), id, spendRead, amount, limit)
    {
      if actual.None? { actual := Some(spendRead); }
      if actual.value + reserved + amount > limit { return false; }
      reservations := reservations[id := amount];
      reserved := reserved + amount;
      return true;
    }

    method RunReconcile(id: Id, spendRead: int) returns (done: bool)
      modifies this
      ensures (State(), done) == Reconcile(old(State()), id, spendRead)
    {
      if id in markers { return false; }
      if id in reservations {
        reserved := reserved - reservations[id];
      }
      reservations := reservations - {id};
      actual := Some(spendRead);
      markers := markers + {id};
      return true;
    }

    method RunRelease(id: Id) returns (done: bool)
      modifies this
      ensures (State(), done) == Release(old(State()), id)
    {
      if id !in reservations { return false; }
      reserved := reserved - reservations[id];
      reservations := reservations - {id};
      return true;
    }
  }
}
