/** The hard spend cap of one API key across its two stores (mixapi/runtime/budget.py
    with the settlement outbox of mixapi/repositories/usage.py).

    PostgreSQL holds the settlements, in commit order; Redis holds the counters that
    admit new requests.  A request reserves in Redis, then either releases or settles
    in PostgreSQL and finishes in Redis; the outbox worker finishes too, any number of
    times.  Requests and workers may crash between any two steps.  A spend value read
    earlier than the script that carries it is a shorter prefix of the settlements. */
module SpendCap {
  import opened Prelude
  import B = BudgetScripts

  type Id = B.Id

  datatype Row = Row(id: Id, cost: int)

  /** What a request may still do with its reservation. */
  datatype Request = Open(amount: int) | Released

  datatype State = State(redis: B.Store, log: seq<Row>, requests: map<Id, Request>)

  const START := State(B.EMPTY, [], map[])

  /** The key's limit, and the spend it had before the first tracked reservation. */
  datatype Key = Key(base: int, limit: int)

  datatype Step =
    | Reserve(id: Id, amount: int, seen: nat)
    | Release(id: Id)
    | Settle(id: Id, cost: int)
    | Finish(id: Id, seen: nat)
    | ExpireMarker(id: Id)

  function Cost(log: seq<Row>): int
    decreases |log|
  {
    if log == [] then 0 else Cost(log[..|log| - 1]) + log[|log| - 1].cost
  }

  /** `actual_spend` as it was when the first `seen` settlements had committed. */
  function SpendAt(k: Key, s: State, seen: nat): int
    requires seen <= |s.log|
  {
    k.base + Cost(s.log[..seen])
  }

  function Spend(k: Key, s: State): int { k.base + Cost(s.log) }

  ghost function Settled(s: State): set<Id> { set i | 0 <= i < |s.log| :: s.log[i].id }

  ghost predicate SettledBy(s: State, id: Id, seen: nat) {
    exists i :: 0 <= i < seen <= |s.log| && s.log[i].id == id
  }

  /** What program order allows.  Ids are fresh; a request that released does not
      settle; a settlement costs at most what it reserved; a finish reads the spend
      after its own settlement has committed. */
  ghost predicate Enabled(k: Key, s: State, t: Step) {
    match t
    case Reserve(id, amount, seen) => id !in s.requests && amount >= 0 && seen <= |s.log|
    case Release(id) => id in s.requests && s.requests[id].Open? && id !in Settled(s)
    case Settle(id, cost) => id in s.requests && s.requests[id].Open? && 0 <= cost <= s.requests[id].amount
    case Finish(id, seen) => seen <= |s.log| && SettledBy(s, id, seen)
    case ExpireMarker(id) => true
  }

  /** `settle_reservation` appends an outbox row only for a reservation without one. */
  ghost function Next(k: Key, s: State, t: Step): State
    requires Enabled(k, s, t)
  {
    match t
    case Reserve(id, amount, seen) =>
      var (redis, accepted) := B.Reserve(s.redis, id, SpendAt(k, s, seen), amount, k.limit);
      s.(redis := redis, requests := if accepted then s.requests[id := Open(amount)] else s.requests)
    case Release(id) => s.(redis := B.Release(s.redis, id).0, requests := s.requests[id := Released])
    case Settle(id, cost) => if id in Settled(s) then s else s.(log := s.log + [Row(id, cost)])
    case Finish(id, seen) => s.(redis := B.Reconcile(s.redis, id, SpendAt(k, s, seen)).0)
    case ExpireMarker(id) => s.(redis := B.ExpireMarker(s.redis, id))
  }

  ghost predicate ValidRun(k: Key, s: State, steps: seq<Step>)
    decreases |steps|
  {
    steps == [] || (Enabled(k, s, steps[0]) && ValidRun(k, Next(k, s, steps[0]), steps[1..]))
  }

  ghost function Run(k: Key, s: State, steps: seq<Step>): State
    requires ValidRun(k, s, steps)
    decreases |steps|
  {
    if steps == [] then s else Run(k, Next(k, s, steps[0]), steps[1..])
  }

  // ------------------------------------------------ what holds in every state

  /** A settlement belongs to a request that reserved at least its cost. */
  predicate WithinRequest(requests: map<Id, Request>, row: Row) {
    row.id in requests && requests[row.id].Open? && 0 <= row.cost <= requests[row.id].amount
  }

  ghost predicate Inv(k: Key, s: State) {
    && B.Conserved(s.redis)
    && (forall id :: id in s.redis.reservations ==>
          id in s.requests && s.requests[id] == Open(s.redis.reservations[id]))
    && (forall id :: id in s.requests && s.requests[id].Open? ==>
          s.requests[id].amount >= 0 && (id in Settled(s) || id in s.redis.reservations))
    && (forall id :: id in s.requests && s.requests[id].Released? ==> id !in Settled(s))
    && (forall id :: id in s.redis.markers ==> id in s.requests && id !in s.redis.reservations)
    && (forall i :: 0 <= i < |s.log| ==> WithinRequest(s.requests, s.log[i]))
    && (forall i, j :: 0 <= i < j < |s.log| ==> s.log[i].id != s.log[j].id)
    && (s.redis.actual.None? ==> s.requests == map[] && s.log == [])
    && (s.redis.actual.Some? ==> k.base <= s.redis.actual.value <= Spend(k, s))
  }

  lemma {:induction false} CostPrefix(log: seq<Row>, n: nat)
    requires n <= |log| && forall i :: 0 <= i < |log| ==> log[i].cost >= 0
    ensures Cost(log[..n]) <= Cost(log)
    decreases |log|
  {
    if n == |log| {
      assert log[..n] == log;
    } else {
      assert log[..|log| - 1][..n] == log[..n];
      CostPrefix(log[..|log| - 1], n);
    }
  }

  /** A spend read at any time is at least the one before the first settlement and at
      most the present one. */
  lemma {:induction false} SpendAtBounds(k: Key, s: State, seen: nat)
    requires seen <= |s.log| && forall i :: 0 <= i < |s.log| ==> s.log[i].cost >= 0
    ensures k.base <= SpendAt(k, s, seen) <= Spend(k, s)
  {
    CostPrefix(s.log, seen);
    CostPrefix(s.log[..seen], 0);
  }

  lemma {:induction false} SettledAfter(s: State, row: Row)
    ensures Settled(s.(log := s.log + [row])) == Settled(s) + {row.id}
    ensures Cost(s.log + [row]) == Cost(s.log) + row.cost
  {
    var log := s.log + [row];
    assert log[..|s.log|] == s.log;
    forall i | 0 <= i < |s.log| ensures s.log[i].id in Settled(s.(log := log)) { assert log[i] == s.log[i]; }
    assert log[|s.log|] == row;
  }

  lemma {:induction false} ReserveKeepsInv(k: Key, s: State, t: Step)
    requires t.Reserve? && Inv(k, s) && Enabled(k, s, t)
    ensures Inv(k, Next(k, s, t))
  {
    SpendAtBounds(k, s, t.seen);
    B.StepConserves(s.redis, B.CallReserve(t.id, SpendAt(k, s, t.seen), t.amount, k.limit));
    assert Settled(Next(k, s, t)) == Settled(s);
  }

  lemma {:induction false} SettleKeepsInv(k: Key, s: State, t: Step)
    requires t.Settle? && Inv(k, s) && Enabled(k, s, t)
    ensures Inv(k, Next(k, s, t))
  {
    if t.id !in Settled(s) {
      var row := Row(t.id, t.cost);
      SettledAfter(s, row);
      LogGrows(s, row);
      assert Next(k, s, t) == s.(log := s.log + [row]);
    }
  }

  lemma {:induction false} LogGrows(s: State, row: Row)
    requires row.id !in Settled(s) && WithinRequest(s.requests, row)
    requires forall i :: 0 <= i < |s.log| ==> WithinRequest(s.requests, s.log[i])
    requires forall i, j :: 0 <= i < j < |s.log| ==> s.log[i].id != s.log[j].id
    ensures var log := s.log + [row];
      && (forall i :: 0 <= i < |log| ==> WithinRequest(s.requests, log[i]))
      && forall i, j :: 0 <= i < j < |log| ==> log[i].id != log[j].id
  {
    forall i | 0 <= i < |s.log| ensures s.log[i].id != row.id { assert s.log[i].id in Settled(s); }
  }

  lemma {:induction false} RedisKeepsInv(k: Key, s: State, t: Step)
    requires t.Release? || t.Finish? || t.ExpireMarker?
    requires Inv(k, s) && Enabled(k, s, t)
    ensures Inv(k, Next(k, s, t))
  {
    assert Settled(Next(k, s, t)) == Settled(s);
    if t.Finish? {
      SpendAtBounds(k, s, t.seen);
      B.StepConserves(s.redis, B.CallReconcile(t.id, SpendAt(k, s, t.seen)));
    } else if t.Release? {
      B.StepConserves(s.redis, B.CallRelease(t.id));
    }
  }

  lemma {:induction false} InvStep(k: Key, s: State, t: Step)
    requires Inv(k, s) && Enabled(k, s, t)
    ensures Inv(k, Next(k, s, t))
  {
    match t
    case Reserve(_, _, _) => ReserveKeepsInv(k, s, t);
    case Settle(_, _) => SettleKeepsInv(k, s, t);
    case _ => RedisKeepsInv(k, s, t);
  }

  /** Without any assumption on when the spend was read, Redis never shows more than
      the durable spend or less than the first, and its reserved counter is the sum of the live reservations:
      each delivered finish subtracted its reservation once. */
  lemma {:induction false} EveryRun(k: Key, s: State, steps: seq<Step>)
    requires Inv(k, s) && ValidRun(k, s, steps)
    ensures Inv(k, Run(k, s, steps))
    decreases |steps|
  {
    if steps != [] {
      InvStep(k, s, steps[0]);
      EveryRun(k, Next(k, s, steps[0]), steps[1..]);
    }
  }

  // ------------------------------------------- each reservation is taken out once

  ghost predicate Delivered(steps: seq<Step>, id: Id) {
    exists i :: 0 <= i < |steps| && steps[i].Finish? && steps[i].id == id
  }

  /** Live in Redis, or not yet reserved. */
  ghost predicate LiveOrNew(s: State, id: Id) { id in s.redis.reservations || id !in s.requests }

  lemma {:induction false} ReleasedNeverSettles(k: Key, s: State, steps: seq<Step>, id: Id)
    requires Inv(k, s) && ValidRun(k, s, steps) && id in s.requests && s.requests[id].Released?
    ensures id !in Settled(Run(k, s, steps))
    decreases |steps|
  {
    if steps != [] {
      InvStep(k, s, steps[0]);
      ReleasedNeverSettles(k, Next(k, s, steps[0]), steps[1..], id);
    }
  }

  lemma {:induction false} StepKeepsLive(k: Key, s: State, t: Step, id: Id)
    requires Inv(k, s) && Enabled(k, s, t) && t != Release(id)
    ensures LiveOrNew(Next(k, s, t), id) <==> LiveOrNew(s, id) && !(t.Finish? && t.id == id)
  {
    if t.Finish? && t.id == id {
      var i :| 0 <= i < t.seen && s.log[i].id == id;
      assert WithinRequest(s.requests, s.log[i]);
    }
  }

  /** Of a request that settles, the reservation is live until its first delivered finish
      and never again. */
  lemma {:induction false} SettledLiveIff(k: Key, s: State, steps: seq<Step>, id: Id)
    requires Inv(k, s) && ValidRun(k, s, steps) && id in Settled(Run(k, s, steps))
    ensures id in Run(k, s, steps).redis.reservations <==> LiveOrNew(s, id) && !Delivered(steps, id)
    decreases |steps|
  {
    if steps == [] {
      SettledWasRequested(k, s, id);
    } else {
      var t, s', rest := steps[0], Next(k, s, steps[0]), steps[1..];
      InvStep(k, s, t);
      if t == Release(id) { ReleasedNeverSettles(k, s', rest, id); }
      StepKeepsLive(k, s, t, id);
      SettledLiveIff(k, s', rest, id);
      DeliveredNow(steps, id);
    }
  }

  lemma {:induction false} SettledWasRequested(k: Key, s: State, id: Id)
    requires Inv(k, s) && id in Settled(s)
    ensures id in s.requests
  {
    var i :| 0 <= i < |s.log| && s.log[i].id == id;
    assert WithinRequest(s.requests, s.log[i]);
  }

  lemma {:induction false} DeliveredNow(steps: seq<Step>, id: Id)
    requires steps != []
    ensures Delivered(steps, id) <==> (steps[0].Finish? && steps[0].id == id) || Delivered(steps[1..], id)
  {
    if i :| 0 <= i < |steps[1..]| && steps[1..][i].Finish? && steps[1..][i].id == id {
      assert steps[i + 1] == steps[1..][i];
    }
  }

  /** At-least-once delivery subtracts once: in every run from the start the first finish
      delivered for a settlement takes out exactly what its request reserved, and every
      later one nothing, however requests, workers and marker expiries interleave. */
  lemma {:induction false} DeliveriesSubtractOnce(k: Key, steps: seq<Step>, t: Step)
    requires ValidRun(k, START, steps) && t.Finish? && Enabled(k, Run(k, START, steps), t)
    ensures var s := Run(k, START, steps);
            var redis := Next(k, s, t).redis;
            && t.id in s.requests && s.requests[t.id].Open?
            && redis.reserved == s.redis.reserved - (if Delivered(steps, t.id) then 0 else s.requests[t.id].amount)
            && redis.reservations == s.redis.reservations - {t.id}
            && (t.id in s.redis.reservations <==> !Delivered(steps, t.id))
  {
    var s := Run(k, START, steps);
    assert START.redis.reservations - Settled(START) == map[];
    EveryRun(k, START, steps);
    var i :| 0 <= i < t.seen && s.log[i].id == t.id;
    assert t.id in Settled(s) && WithinRequest(s.requests, s.log[i]);
    SettledLiveIff(k, START, steps, t.id);
    if Delivered(steps, t.id) { assert s.redis.reservations - {t.id} == s.redis.reservations; }
  }

  // ------------------------------------------------------------- the spend cap

  /** Live reservations of requests that have not settled. */
  ghost function Unsettled(s: State): int { Total(s.redis.reservations - Settled(s)) }

  ghost predicate Cap(k: Key, s: State) { Spend(k, s) + Unsettled(s) <= Max(k.base, k.limit) }

  /** What Redis counts is at least the durable spend plus the unsettled amounts. */
  ghost predicate Reports(k: Key, s: State) {
    s.redis.actual.Some? && s.redis.actual.value + s.redis.reserved >= Spend(k, s) + Unsettled(s)
  }

  /** Nothing is counted before the first reservation. */
  ghost predicate Reporting(k: Key, s: State) { s.redis.actual.None? || Reports(k, s) }

  /** A finish that writes does not write less than the durable spend without the costs
      of the other settlements whose reservations are still live, taken at what they
      reserved. */
  ghost predicate WritesEnough(k: Key, s: State, t: Step)
    requires Enabled(k, s, t)
  {
    t.Finish? && t.id !in s.redis.markers ==>
      SpendAt(k, s, t.seen) + Total(Restrict(s.redis.reservations, Settled(s) - {t.id})) >= Spend(k, s)
  }

  ghost predicate FinishesWriteEnough(k: Key, s: State, steps: seq<Step>)
    requires ValidRun(k, s, steps)
    decreases |steps|
  {
    steps == [] || (WritesEnough(k, s, steps[0]) && FinishesWriteEnough(k, Next(k, s, steps[0]), steps[1..]))
  }

  /** In every state of the run Redis counts enough. */
  ghost predicate AlwaysReporting(k: Key, s: State, steps: seq<Step>)
    requires ValidRun(k, s, steps)
    decreases |steps|
  {
    Reporting(k, s) && (steps == [] || AlwaysReporting(k, Next(k, s, steps[0]), steps[1..]))
  }

  /** A finish leaves Redis counting enough exactly when the spend it writes and the
      reservations still held by settled requests make up the durable spend. */
  lemma {:induction false} FinishReportsIff(k: Key, s: State, t: Step)
    requires Inv(k, s) && t.Finish? && Enabled(k, s, t) && t.id !in s.redis.markers
    ensures Reports(k, Next(k, s, t)) <==> WritesEnough(k, s, t)
  {
    var s' := Next(k, s, t);
    InvStep(k, s, t);
    assert Settled(s') == Settled(s);
    TotalSplit(s'.redis.reservations, Settled(s));
    assert Restrict(s'.redis.reservations, Settled(s)) == Restrict(s.redis.reservations, Settled(s) - {t.id});
  }

  /** A reservation adds its amount to the unsettled ones. */
  lemma {:induction false} ReserveAddsAmount(s: State, id: Id, amount: int)
    requires id !in s.redis.reservations && id !in Settled(s)
    ensures Total(s.redis.reservations[id := amount] - Settled(s)) == Unsettled(s) + amount
  {
    var waiting := s.redis.reservations - Settled(s);
    assert s.redis.reservations[id := amount] - Settled(s) == waiting[id := amount];
    TotalAdd(waiting, id, amount);
  }

  lemma {:induction false} NotRequestedNotSettled(k: Key, s: State, id: Id)
    requires Inv(k, s) && id !in s.requests
    ensures id !in Settled(s) && id !in s.redis.reservations
  {
    assert forall i :: 0 <= i < |s.log| ==> WithinRequest(s.requests, s.log[i]);
  }

  lemma {:induction false} ReserveKeepsReporting(k: Key, s: State, t: Step)
    requires t.Reserve? && Inv(k, s) && Reporting(k, s) && Enabled(k, s, t)
    ensures Reporting(k, Next(k, s, t))
  {
    var s' := Next(k, s, t);
    NotRequestedNotSettled(k, s, t.id);
    assert Settled(s') == Settled(s);
    ReserveAddsAmount(s, t.id, t.amount);
    if s.redis.actual.None? {
      assert s.redis.reservations == map[];
      assert s.redis.reservations - Settled(s) == map[];
    }
    if s'.redis.reservations == s.redis.reservations { assert Unsettled(s') == Unsettled(s); }
  }

  lemma {:induction false} ReserveKeepsCap(k: Key, s: State, t: Step)
    requires t.Reserve? && Inv(k, s) && Reporting(k, s) && Cap(k, s) && Enabled(k, s, t)
    ensures Cap(k, Next(k, s, t))
  {
    var s' := Next(k, s, t);
    NotRequestedNotSettled(k, s, t.id);
    assert Settled(s') == Settled(s);
    ReserveAddsAmount(s, t.id, t.amount);
    if s'.redis.reservations == s.redis.reservations { assert Unsettled(s') == Unsettled(s); }
  }

  /** A settlement takes its reservation out of the unsettled ones. */
  lemma {:induction false} SettleMovesAmount(s: State, row: Row)
    requires row.id in s.redis.reservations && row.id !in Settled(s)
    ensures Unsettled(s.(log := s.log + [row])) == Unsettled(s) - s.redis.reservations[row.id]
  {
    SettledAfter(s, row);
    var waiting := s.redis.reservations - Settled(s);
    assert s.redis.reservations - (Settled(s) + {row.id}) == waiting - {row.id};
    TotalRemove(waiting, row.id);
  }

  lemma {:induction false} SettleKeepsBoth(k: Key, s: State, t: Step)
    requires t.Settle? && Inv(k, s) && Enabled(k, s, t)
    ensures Reporting(k, s) ==> Reporting(k, Next(k, s, t))
    ensures Cap(k, s) ==> Cap(k, Next(k, s, t))
  {
    if t.id !in Settled(s) {
      var row := Row(t.id, t.cost);
      SettleMovesAmount(s, row);
      SettledAfter(s, row);
    }
  }

  lemma {:induction false} ReleaseKeepsReporting(k: Key, s: State, t: Step)
    requires t.Release? && Inv(k, s) && Reporting(k, s) && Enabled(k, s, t)
    ensures Reporting(k, Next(k, s, t))
  {
    var s' := Next(k, s, t);
    var waiting := s.redis.reservations - Settled(s);
    assert Settled(s') == Settled(s);
    assert s'.redis.reservations - Settled(s') == waiting - {t.id};
    TotalRemove(waiting, t.id);
  }

  /** Only a finish that writes can make Redis count too little. */
  lemma {:induction false} StepKeepsReportingIff(k: Key, s: State, t: Step)
    requires Inv(k, s) && Reporting(k, s) && Enabled(k, s, t)
    ensures Reporting(k, Next(k, s, t)) <==> WritesEnough(k, s, t)
  {
    match t
    case Reserve(_, _, _) => ReserveKeepsReporting(k, s, t);
    case Settle(_, _) => SettleKeepsBoth(k, s, t);
    case Release(_) => ReleaseKeepsReporting(k, s, t);
    case Finish(_, _) =>
      if t.id in s.redis.markers { assert Next(k, s, t) == s; } else { FinishReportsIff(k, s, t); }
    case ExpireMarker(_) => assert Settled(Next(k, s, t)) == Settled(s);
  }

  /** When Redis keeps counting enough: through the whole of a run, whatever interleaves
      in it, exactly if each finish of the run that writes, writes enough. */
  lemma {:induction false} AlwaysReportingIff(k: Key, s: State, steps: seq<Step>)
    requires Inv(k, s) && Reporting(k, s) && ValidRun(k, s, steps)
    ensures AlwaysReporting(k, s, steps) <==> FinishesWriteEnough(k, s, steps)
    decreases |steps|
  {
    if steps != [] {
      StepKeepsReportingIff(k, s, steps[0]);
      InvStep(k, s, steps[0]);
      if WritesEnough(k, s, steps[0]) { AlwaysReportingIff(k, Next(k, s, steps[0]), steps[1..]); }
    }
  }

  lemma {:induction false} RedisKeepsCap(k: Key, s: State, t: Step)
    requires t.Release? || t.Finish? || t.ExpireMarker?
    requires Inv(k, s) && Cap(k, s) && Enabled(k, s, t)
    ensures Cap(k, Next(k, s, t))
  {
    var s' := Next(k, s, t);
    var waiting := s.redis.reservations - Settled(s);
    assert Settled(s') == Settled(s);
    if t.Release? {
      if t.id in waiting {
        TotalRemove(waiting, t.id);
      }
      assert s'.redis.reservations - Settled(s') == waiting - {t.id};
      assert t.id !in waiting ==> waiting - {t.id} == waiting;
    } else {
      assert s'.redis.reservations - Settled(s') == waiting;
    }
  }

  lemma {:induction false} StepKeepsCap(k: Key, s: State, t: Step)
    requires Inv(k, s) && Reporting(k, s) && Cap(k, s) && Enabled(k, s, t)
    ensures Cap(k, Next(k, s, t))
  {
    match t
    case Reserve(_, _, _) => ReserveKeepsCap(k, s, t);
    case Settle(_, _) => SettleKeepsBoth(k, s, t);
    case _ => RedisKeepsCap(k, s, t);
  }

  ghost predicate AlwaysCapped(k: Key, s: State, steps: seq<Step>)
    requires ValidRun(k, s, steps)
    decreases |steps|
  {
    Cap(k, s) && (steps == [] || AlwaysCapped(k, Next(k, s, steps[0]), steps[1..]))
  }

  /** The two-store spend cap.  In every state of any interleaving of requests, crashes,
      retries and workers whose finishes write enough, durable spend plus the live
      reservations of unsettled requests is at most the limit, or the spend there was
      before. */
  lemma {:induction false} SpendCapHolds(k: Key, s: State, steps: seq<Step>)
    requires Inv(k, s) && Reporting(k, s) && Cap(k, s)
    requires ValidRun(k, s, steps) && FinishesWriteEnough(k, s, steps)
    ensures AlwaysCapped(k, s, steps)
    decreases |steps|
  {
    if steps != [] {
      var t := steps[0];
      StepKeepsCap(k, s, t);
      StepKeepsReportingIff(k, s, t);
      InvStep(k, s, t);
      SpendCapHolds(k, Next(k, s, t), steps[1..]);
    }
  }

  // --------------------------------------------- finishes that never lower the spend

  /** Redis shows the spend after `n` settlements, and every later settlement still has
      its reservation live. */
  ghost predicate Covers(k: Key, s: State, n: nat) {
    && n <= |s.log|
    && s.redis.actual == Some(SpendAt(k, s, n))
    && forall i :: n <= i < |s.log| ==> s.log[i].id in s.redis.reservations
  }

  ghost predicate Covered(k: Key, s: State) { s.redis.actual.None? || exists n :: Covers(k, s, n) }

  /** A finish that writes does not replace the spend in Redis by a smaller one.  It is
      so whenever the spend is read and the script run as one step. */
  ghost predicate NotLowering(k: Key, s: State, t: Step)
    requires Enabled(k, s, t)
  {
    t.Finish? && t.id !in s.redis.markers && s.redis.actual.Some? ==> s.redis.actual.value <= SpendAt(k, s, t.seen)
  }

  ghost predicate NeverLowering(k: Key, s: State, steps: seq<Step>)
    requires ValidRun(k, s, steps)
    decreases |steps|
  {
    steps == [] || (NotLowering(k, s, steps[0]) && NeverLowering(k, Next(k, s, steps[0]), steps[1..]))
  }

  ghost function Ids(log: seq<Row>): set<Id> { set i | 0 <= i < |log| :: log[i].id }

  /** Settlements after the first `n` cost at most what their live reservations hold. */
  lemma {:induction false} LateCosts(log: seq<Row>, n: nat, live: map<Id, int>)
    requires n <= |log|
    requires forall i, j :: 0 <= i < j < |log| ==> log[i].id != log[j].id
    requires forall id :: id in live ==> live[id] >= 0
    requires forall i :: n <= i < |log| ==> log[i].id in live && log[i].cost <= live[log[i].id]
    ensures Cost(log) - Cost(log[..n]) <= Total(Restrict(live, Ids(log)))
    decreases |log|
  {
    if n == |log| {
      assert log[..n] == log;
      TotalNonNegative(Restrict(live, Ids(log)));
    } else {
      var before, last := log[..|log| - 1], log[|log| - 1];
      assert before[..n] == log[..n];
      LateCosts(before, n, live);
      assert Ids(log) == Ids(before) + {last.id};
      assert Restrict(live, Ids(log)) == Restrict(live, Ids(before))[last.id := live[last.id]];
      TotalAdd(Restrict(live, Ids(before)), last.id, live[last.id]);
    }
  }

  lemma {:induction false} CoveredReports(k: Key, s: State)
    requires Inv(k, s) && Covered(k, s) && s.redis.actual.Some?
    ensures Reports(k, s)
  {
    var n: nat :| Covers(k, s, n);
    LateCosts(s.log, n, s.redis.reservations);
    assert Ids(s.log) == Settled(s);
    TotalSplit(s.redis.reservations, Settled(s));
  }

  lemma {:induction false} ReserveKeepsCovered(k: Key, s: State, t: Step)
    requires t.Reserve? && Inv(k, s) && Covered(k, s) && Enabled(k, s, t)
    ensures Covered(k, Next(k, s, t))
  {
    var s' := Next(k, s, t);
    if s.redis.actual.None? {
      assert s.redis.reservations == map[];
      assert Covers(k, s', 0);
    } else {
      var n: nat :| Covers(k, s, n);
      assert Covers(k, s', n);
    }
  }

  lemma {:induction false} SettleKeepsCovered(k: Key, s: State, row: Row)
    requires Inv(k, s) && Covered(k, s)
    requires row.id in s.redis.reservations
    ensures Covered(k, s.(log := s.log + [row]))
  {
    if s.redis.actual.Some? {
      var s' := s.(log := s.log + [row]);
      var n: nat :| Covers(k, s, n);
      assert s'.log[..n] == s.log[..n];
      assert Covers(k, s', n);
    }
  }

  lemma {:induction false} RedisKeepsCovered(k: Key, s: State, t: Step)
    requires t.Release? || t.Finish? || t.ExpireMarker?
    requires Inv(k, s) && Covered(k, s) && Enabled(k, s, t) && NotLowering(k, s, t)
    ensures Covered(k, Next(k, s, t))
  {
    if s.redis.actual.Some? {
      var n: nat :| Covers(k, s, n);
      if t.Finish? && t.id !in s.redis.markers {
        FinishCovers(k, s, t, n);
      } else {
        assert Covers(k, Next(k, s, t), n);
      }
    }
  }

  lemma {:induction false} FinishCovers(k: Key, s: State, t: Step, n: nat)
    requires t.Finish? && Inv(k, s) && Covers(k, s, n) && Enabled(k, s, t) && NotLowering(k, s, t)
    requires t.id !in s.redis.markers
    ensures Covered(k, Next(k, s, t))
  {
    var s' := Next(k, s, t);
    var own :| 0 <= own < t.seen && s.log[own].id == t.id;
    if t.seen < n {
      assert s.log[..n][..t.seen] == s.log[..t.seen];
      CostPrefix(s.log[..n], t.seen);
      StillCovers(k, s, t, n, own);
    } else {
      StillCovers(k, s, t, t.seen, own);
    }
  }

  lemma {:induction false} StillCovers(k: Key, s: State, t: Step, n: nat, own: nat)
    requires t.Finish? && Enabled(k, s, t) && t.id !in s.redis.markers
    requires own < n <= |s.log| && s.log[own].id == t.id
    requires forall i, j :: 0 <= i < j < |s.log| ==> s.log[i].id != s.log[j].id
    requires SpendAt(k, s, t.seen) == SpendAt(k, s, n)
    requires forall i :: n <= i < |s.log| ==> s.log[i].id in s.redis.reservations
    ensures Covers(k, Next(k, s, t), n)
  {
  }

  lemma {:induction false} StepKeepsCovered(k: Key, s: State, t: Step)
    requires Inv(k, s) && Covered(k, s) && Enabled(k, s, t) && NotLowering(k, s, t)
    ensures Covered(k, Next(k, s, t))
  {
    match t
    case Reserve(_, _, _) => ReserveKeepsCovered(k, s, t);
    case Settle(_, _) => if t.id !in Settled(s) { SettleKeepsCovered(k, s, Row(t.id, t.cost)); }
    case _ => RedisKeepsCovered(k, s, t);
  }

  /** Finishes that never lower the spend in Redis write enough.  The converse fails: a
      lower value is harmless while the settlements it misses are still reserved. */
  lemma {:induction false} NeverLoweringWritesEnough(k: Key, s: State, steps: seq<Step>)
    requires Inv(k, s) && Covered(k, s) && ValidRun(k, s, steps) && NeverLowering(k, s, steps)
    ensures FinishesWriteEnough(k, s, steps)
    decreases |steps|
  {
    if steps != [] {
      var t, s' := steps[0], Next(k, s, steps[0]);
      StepKeepsCovered(k, s, t);
      InvStep(k, s, t);
      if s'.redis.actual.Some? { CoveredReports(k, s'); }
      if t.Finish? && t.id !in s.redis.markers { FinishReportsIff(k, s, t); }
      NeverLoweringWritesEnough(k, s', steps[1..]);
    }
  }

  lemma {:induction false} StartIsSafe(k: Key)
    ensures Inv(k, START) && Covered(k, START) && Cap(k, START)
  {
    assert START.redis.reservations - Settled(START) == map[];
  }

  ghost predicate FinishesReadLatest(k: Key, s: State, steps: seq<Step>)
    requires ValidRun(k, s, steps)
    decreases |steps|
  {
    steps == [] || ((steps[0].Finish? ==> steps[0].seen == |s.log|)
                    && FinishesReadLatest(k, Next(k, s, steps[0]), steps[1..]))
  }

  /** No finish lowers the spend when each reads the latest one. */
  lemma {:induction false} AtomicFinishesNeverLower(k: Key, s: State, steps: seq<Step>)
    requires Inv(k, s) && ValidRun(k, s, steps) && FinishesReadLatest(k, s, steps)
    ensures NeverLowering(k, s, steps)
    decreases |steps|
  {
    if steps != [] {
      assert steps[0].Finish? ==> s.log[..steps[0].seen] == s.log;
      InvStep(k, s, steps[0]);
      AtomicFinishesNeverLower(k, Next(k, s, steps[0]), steps[1..]);
    }
  }

  /** With the read and the script of a finish as one step the cap holds in every run
      from the start, whatever else interleaves. */
  lemma {:induction false} AtomicFinishesKeepCap(k: Key, steps: seq<Step>)
    requires ValidRun(k, START, steps) && FinishesReadLatest(k, START, steps)
    ensures AlwaysCapped(k, START, steps)
  {
    StartIsSafe(k);
    AtomicFinishesNeverLower(k, START, steps);
    NeverLoweringWritesEnough(k, START, steps);
    SpendCapHolds(k, START, steps);
  }

  // ------------------------------------------------------ what losing it means

  /** Once Redis counts too little and still sees room, the next reservation breaks the
      cap; while it counts enough none does. */
  lemma {:induction false} NextReserveOverrunsIff(k: Key, s: State, id: Id, seen: nat)
    requires Inv(k, s) && Cap(k, s) && s.redis.actual.Some? && id !in s.requests && seen <= |s.log|
    ensures (exists amount: nat :: BreaksCap(k, s, Reserve(id, amount, seen)))
        <==> s.redis.actual.value + s.redis.reserved <= k.limit && !Reports(k, s)
  {
    forall amount: nat
      ensures BreaksCap(k, s, Reserve(id, amount, seen))
         <==> (s.redis.actual.value + s.redis.reserved + amount <= k.limit
               && Spend(k, s) + Unsettled(s) + amount > Max(k.base, k.limit))
    {
      ReserveBreaksIff(k, s, id, amount, seen);
    }
    TotalNonNegative(s.redis.reservations);
    var room := k.limit - s.redis.actual.value - s.redis.reserved;
    if room >= 0 && !Reports(k, s) {
      assert BreaksCap(k, s, Reserve(id, room, seen));
    }
  }

  ghost predicate BreaksCap(k: Key, s: State, t: Step) {
    Enabled(k, s, t) && !Cap(k, Next(k, s, t))
  }

  lemma {:induction false} ReserveBreaksIff(k: Key, s: State, id: Id, amount: nat, seen: nat)
    requires Inv(k, s) && Cap(k, s) && s.redis.actual.Some? && id !in s.requests && seen <= |s.log|
    ensures BreaksCap(k, s, Reserve(id, amount, seen))
       <==> (s.redis.actual.value + s.redis.reserved + amount <= k.limit
             && Spend(k, s) + Unsettled(s) + amount > Max(k.base, k.limit))
  {
    var t := Reserve(id, amount, seen);
    var s' := Next(k, s, t);
    NotRequestedNotSettled(k, s, id);
    assert Settled(s') == Settled(s);
    ReserveAddsAmount(s, id, amount);
    if s'.redis.reservations == s.redis.reservations { assert Unsettled(s') == Unsettled(s); }
  }

  /** What Redis shows of settled requests: the spend and their live reservations. */
  ghost function Counted(s: State): int
    requires s.redis.actual.Some?
  {
    s.redis.actual.value + Total(Restrict(s.redis.reservations, Settled(s)))
  }

  /** Redis counts enough, or so much that it admits no further reservation. */
  ghost predicate Safe(k: Key, s: State) {
    s.redis.actual.Some? && (Reports(k, s) || Counted(s) > k.limit)
  }

  lemma {:induction false} CountedSplit(k: Key, s: State)
    requires Inv(k, s) && s.redis.actual.Some?
    ensures s.redis.actual.value + s.redis.reserved == Counted(s) + Unsettled(s)
    ensures Reports(k, s) <==> Counted(s) >= Spend(k, s)
    ensures Unsettled(s) >= 0
  {
    TotalSplit(s.redis.reservations, Settled(s));
    TotalNonNegative(s.redis.reservations - Settled(s));
  }

  ghost predicate NoFinish(steps: seq<Step>) { forall i :: 0 <= i < |steps| ==> !steps[i].Finish? }

  ghost predicate LosesCap(k: Key, s: State, steps: seq<Step>) {
    ValidRun(k, s, steps) && NoFinish(steps) && !Cap(k, Run(k, s, steps))
  }

  /** Exactly when the cap can be lost, without any further finish: when Redis counts
      less of the settled requests than they spent, and at most the limit. */
  lemma {:induction false} CapCanBeLostIff(k: Key, s: State, id: Id)
    requires Inv(k, s) && Cap(k, s) && s.redis.actual.Some? && id !in s.requests
    ensures (exists steps :: LosesCap(k, s, steps)) <==> Counted(s) < Spend(k, s) && Counted(s) <= k.limit
  {
    CountedSplit(k, s);
    if Safe(k, s) {
      forall steps ensures !LosesCap(k, s, steps) {
        if ValidRun(k, s, steps) && NoFinish(steps) { SafeStaysCapped(k, s, steps); }
      }
    } else {
      ReleaseThenOverrun(k, s, id);
    }
  }

  lemma {:induction false} SafeStaysCapped(k: Key, s: State, steps: seq<Step>)
    requires Inv(k, s) && Cap(k, s) && Safe(k, s) && ValidRun(k, s, steps) && NoFinish(steps)
    ensures Cap(k, Run(k, s, steps))
    decreases |steps|
  {
    if steps != [] {
      StepKeepsSafe(k, s, steps[0]);
      InvStep(k, s, steps[0]);
      SafeStaysCapped(k, Next(k, s, steps[0]), steps[1..]);
    }
  }

  lemma {:induction false} StepKeepsSafe(k: Key, s: State, t: Step)
    requires Inv(k, s) && Cap(k, s) && Safe(k, s) && Enabled(k, s, t) && !t.Finish?
    ensures Safe(k, Next(k, s, t)) && Cap(k, Next(k, s, t))
  {
    if Reports(k, s) {
      StepKeepsCap(k, s, t);
      StepKeepsReportingIff(k, s, t);
    } else if t.Reserve? {
      CountedSplit(k, s);
      assert Next(k, s, t) == s;
    } else if t.Settle? {
      SettleKeepsBoth(k, s, t);
      SettleCounts(k, s, t);
    } else {
      RedisKeepsCap(k, s, t);
      OthersLeaveCounted(k, s, t);
    }
  }

  lemma {:induction false} OthersLeaveCounted(k: Key, s: State, t: Step)
    requires t.Release? || t.ExpireMarker?
    requires Inv(k, s) && s.redis.actual.Some? && Enabled(k, s, t)
    ensures var s' := Next(k, s, t);
            && s'.redis.actual == s.redis.actual && Settled(s') == Settled(s)
            && Counted(s') == Counted(s) && Spend(k, s') == Spend(k, s)
  {
    assert Settled(Next(k, s, t)) == Settled(s);
    assert Restrict(Next(k, s, t).redis.reservations, Settled(s)) == Restrict(s.redis.reservations, Settled(s));
  }

  lemma {:induction false} SettleCounts(k: Key, s: State, t: Step)
    requires t.Settle? && Inv(k, s) && s.redis.actual.Some? && Enabled(k, s, t)
    ensures Counted(Next(k, s, t)) >= Counted(s)
  {
    if t.id !in Settled(s) {
      var held := Restrict(s.redis.reservations, Settled(s));
      SettledAfter(s, Row(t.id, t.cost));
      TotalAdd(held, t.id, s.redis.reservations[t.id]);
      assert Restrict(s.redis.reservations, Settled(s) + {t.id}) == held[t.id := s.redis.reservations[t.id]];
    }
  }

  /** Every waiting request releases, and the next one takes all the room there seems to be. */
  lemma {:induction false} ReleaseThenOverrun(k: Key, s: State, id: Id)
    requires Inv(k, s) && Cap(k, s) && s.redis.actual.Some? && id !in s.requests
    requires Counted(s) < Spend(k, s) && Counted(s) <= k.limit
    ensures exists steps :: LosesCap(k, s, steps)
    decreases Waiting(s)
  {
    if Waiting(s) == {} {
      OverrunNow(k, s, id);
    } else {
      var waiting :| waiting in Waiting(s);
      var t := Release(waiting);
      ReleaseLeavesCounted(k, s, t);
      InvStep(k, s, t);
      ReleaseThenOverrun(k, Next(k, s, t), id);
      var rest :| LosesCap(k, Next(k, s, t), rest);
      LoseLater(k, s, t, rest);
    }
  }

  lemma {:induction false} LoseLater(k: Key, s: State, t: Step, rest: seq<Step>)
    requires !t.Finish? && Enabled(k, s, t) && LosesCap(k, Next(k, s, t), rest)
    ensures LosesCap(k, s, [t] + rest)
  {
    Prepend(k, s, t, rest);
  }

  lemma {:induction false} OverrunNow(k: Key, s: State, id: Id)
    requires Inv(k, s) && Cap(k, s) && s.redis.actual.Some? && id !in s.requests && Waiting(s) == {}
    requires Counted(s) < Spend(k, s) && Counted(s) <= k.limit
    ensures exists steps :: LosesCap(k, s, steps)
  {
    CountedSplit(k, s);
    assert s.redis.reservations - Settled(s) == map[];
    NextReserveOverrunsIff(k, s, id, 0);
    var amount: nat :| BreaksCap(k, s, Reserve(id, amount, 0));
    LoseLater(k, s, Reserve(id, amount, 0), []);
  }

  lemma {:induction false} ReleaseLeavesCounted(k: Key, s: State, t: Step)
    requires Inv(k, s) && Cap(k, s) && s.redis.actual.Some? && t.Release? && t.id in Waiting(s)
    ensures Enabled(k, s, t) && Cap(k, Next(k, s, t))
    ensures var s' := Next(k, s, t);
            && s'.redis.actual == s.redis.actual && s'.requests.Keys == s.requests.Keys
            && Waiting(s') == Waiting(s) - {t.id} && Counted(s') == Counted(s) && Spend(k, s') == Spend(k, s)
  {
    RedisKeepsCap(k, s, t);
    OthersLeaveCounted(k, s, t);
  }

  ghost predicate OnlySettles(steps: seq<Step>) { forall i :: 0 <= i < |steps| ==> steps[i].Settle? }

  ghost predicate Overspends(k: Key, s: State, steps: seq<Step>) {
    ValidRun(k, s, steps) && OnlySettles(steps) && Spend(k, Run(k, s, steps)) > Max(k.base, k.limit)
  }

  /** The cap bounds exactly what the requests already admitted may still cost: it holds
      if and only if no settlements of theirs take the durable spend past the limit. */
  lemma {:induction false} CapIsWhatMaySettle(k: Key, s: State)
    requires Inv(k, s)
    ensures Cap(k, s) <==> !exists steps :: Overspends(k, s, steps)
  {
    if Cap(k, s) {
      forall steps ensures !Overspends(k, s, steps) {
        if ValidRun(k, s, steps) && OnlySettles(steps) { SettlesStayCapped(k, s, steps); }
      }
    } else {
      AllSettle(k, s);
    }
  }

  lemma {:induction false} SettlesStayCapped(k: Key, s: State, steps: seq<Step>)
    requires Inv(k, s) && Cap(k, s) && ValidRun(k, s, steps) && OnlySettles(steps)
    ensures Spend(k, Run(k, s, steps)) <= Max(k.base, k.limit)
    decreases |steps|
  {
    if steps == [] {
      TotalNonNegative(s.redis.reservations - Settled(s));
    } else {
      SettleKeepsBoth(k, s, steps[0]);
      InvStep(k, s, steps[0]);
      SettlesStayCapped(k, Next(k, s, steps[0]), steps[1..]);
    }
  }

  ghost function Waiting(s: State): set<Id> { s.redis.reservations.Keys - Settled(s) }

  /** Every waiting request settles for all that it reserved. */
  lemma {:induction false} AllSettle(k: Key, s: State)
    requires Inv(k, s) && !Cap(k, s)
    ensures exists steps :: Overspends(k, s, steps)
    decreases Waiting(s)
  {
    if Waiting(s) == {} {
      assert s.redis.reservations - Settled(s) == map[];
      assert Overspends(k, s, []);
    } else {
      var id :| id in Waiting(s);
      var t := Settle(id, s.redis.reservations[id]);
      SettleInFull(k, s, t);
      InvStep(k, s, t);
      AllSettle(k, Next(k, s, t));
      var rest :| Overspends(k, Next(k, s, t), rest);
      SettleFirst(k, s, t, rest);
    }
  }

  lemma {:induction false} SettleFirst(k: Key, s: State, t: Step, rest: seq<Step>)
    requires t.Settle? && Enabled(k, s, t) && Overspends(k, Next(k, s, t), rest)
    ensures Overspends(k, s, [t] + rest)
  {
    Prepend(k, s, t, rest);
  }

  lemma {:induction false} SettleInFull(k: Key, s: State, t: Step)
    requires Inv(k, s) && t.Settle? && t.id in s.redis.reservations && t.id !in Settled(s)
    requires t.cost == s.redis.reservations[t.id]
    ensures Enabled(k, s, t) && Waiting(Next(k, s, t)) == Waiting(s) - {t.id}
    ensures Cap(k, Next(k, s, t)) <==> Cap(k, s)
  {
    var row := Row(t.id, t.cost);
    SettleMovesAmount(s, row);
    SettledAfter(s, row);
  }

  lemma {:induction false} Prepend(k: Key, s: State, t: Step, rest: seq<Step>)
    requires Enabled(k, s, t) && ValidRun(k, Next(k, s, t), rest)
    ensures ValidRun(k, s, [t] + rest) && Run(k, s, [t] + rest) == Run(k, Next(k, s, t), rest)
  {
    assert ([t] + rest)[1..] == rest;
  }

  // ------------------------------------------------------- a run that loses the cap

  function OneReserved(a: Id, x: nat): State {
    State(B.Store(Some(0), x, map[a := x], {}), [], map[a := Open(x)])
  }

  function BothReserved(a: Id, b: Id, x: nat): State {
    State(B.Store(Some(0), x + x, map[a := x, b := x], {}), [], map[a := Open(x), b := Open(x)])
  }

  function BothSettled(a: Id, b: Id, x: nat): State { BothReserved(a, b, x).(log := [Row(a, x), Row(b, x)]) }

  function Crossed(a: Id, b: Id, x: nat): State {
    BothSettled(a, b, x).(redis := B.Store(Some(x), 0, map[], {a, b}))
  }

  lemma {:induction false} TwoSteps(k: Key, s: State, first: Step, middle: State, second: Step)
    requires Enabled(k, s, first) && Next(k, s, first) == middle && Enabled(k, middle, second)
    ensures ValidRun(k, s, [first, second]) && Run(k, s, [first, second]) == Next(k, middle, second)
  {
    Prepend(k, middle, second, []);
    Prepend(k, s, first, [second]);
    assert [first] + [second] == [first, second];
  }

  lemma {:induction false} BothReserve(k: Key, a: Id, b: Id, x: nat)
    requires k == Key(0, x + x) && a != b
    ensures var steps := [Reserve(a, x, 0), Reserve(b, x, 0)];
      ValidRun(k, START, steps) && Run(k, START, steps) == BothReserved(a, b, x)
  {
    TwoSteps(k, START, Reserve(a, x, 0), OneReserved(a, x), Reserve(b, x, 0));
  }

  lemma {:induction false} BothSettle(k: Key, a: Id, b: Id, x: nat)
    requires a != b
    ensures var steps := [Settle(a, x), Settle(b, x)];
      ValidRun(k, BothReserved(a, b, x), steps) && Run(k, BothReserved(a, b, x), steps) == BothSettled(a, b, x)
  {
    var middle := BothReserved(a, b, x).(log := [Row(a, x)]);
    assert Next(k, middle, Settle(b, x)).log == [Row(a, x), Row(b, x)];
    TwoSteps(k, BothReserved(a, b, x), Settle(a, x), middle, Settle(b, x));
  }

  lemma {:induction false} CostsOfTwo(a: Id, b: Id, x: nat)
    ensures var log := [Row(a, x), Row(b, x)]; Cost(log[..1]) == x && Cost(log[..2]) == x + x
  {
    var log := [Row(a, x), Row(b, x)];
    assert log[..1] == [Row(a, x)] && log[..2] == log && log[..1][..0] == [];
    assert Cost([]) == 0;
  }

  lemma {:induction false} FinishesCross(k: Key, a: Id, b: Id, x: nat)
    requires k == Key(0, x + x) && a != b
    ensures var steps := [Finish(b, 2), Finish(a, 1)];
      ValidRun(k, BothSettled(a, b, x), steps) && Run(k, BothSettled(a, b, x), steps) == Crossed(a, b, x)
  {
    CostsOfTwo(a, b, x);
    var settled := BothSettled(a, b, x);
    var middle := settled.(redis := B.Store(Some(x + x), x, map[a := x], {b}));
    assert SettledBy(settled, b, 2) by { assert settled.log[1].id == b; }
    assert SettledBy(middle, a, 1) by { assert middle.log[0].id == a; }
    TwoSteps(k, settled, Finish(b, 2), middle, Finish(a, 1));
  }

  lemma {:induction false} NextOverspends(k: Key, a: Id, b: Id, c: Id, x: nat)
    requires k == Key(0, x + x) && c != a && c != b
    ensures var steps := [Reserve(c, x, 2), Settle(c, x)];
      ValidRun(k, Crossed(a, b, x), steps) && Spend(k, Run(k, Crossed(a, b, x), steps)) == x + x + x
  {
    CostsOfTwo(a, b, x);
    var crossed := Crossed(a, b, x);
    var middle := Next(k, crossed, Reserve(c, x, 2));
    assert crossed.log[..2] == crossed.log;
    SettledAfter(middle, Row(c, x));
    assert c !in Settled(middle);
    TwoSteps(k, crossed, Reserve(c, x, 2), middle, Settle(c, x));
  }

  /** Two finishes whose reads and scripts cross: the older value is written last, the
      next reservation is admitted, and the durable spend passes the limit, whatever the
      amount. */
  lemma {:induction false} CrossedFinishesBreakTheCap(a: Id, b: Id, c: Id, x: nat) returns (steps: seq<Step>)
    requires a != b && c != a && c != b
    ensures var k := Key(0, x + x); ValidRun(k, START, steps) && Spend(k, Run(k, START, steps)) == x + x + x
  {
    var k := Key(0, x + x);
    var reserves, settles := [Reserve(a, x, 0), Reserve(b, x, 0)], [Settle(a, x), Settle(b, x)];
    var finishes, overspends := [Finish(b, 2), Finish(a, 1)], [Reserve(c, x, 2), Settle(c, x)];
    BothReserve(k, a, b, x);
    BothSettle(k, a, b, x);
    FinishesCross(k, a, b, x);
    NextOverspends(k, a, b, c, x);
    Join(k, BothSettled(a, b, x), finishes, overspends);
    Join(k, BothReserved(a, b, x), settles, finishes + overspends);
    steps := reserves + (settles + (finishes + overspends));
    Join(k, START, reserves, settles + (finishes + overspends));
  }

  lemma {:induction false} Join(k: Key, s: State, first: seq<Step>, second: seq<Step>)
    requires ValidRun(k, s, first) && ValidRun(k, Run(k, s, first), second)
    ensures ValidRun(k, s, first + second) && Run(k, s, first + second) == Run(k, Run(k, s, first), second)
    decreases |first|
  {
    if first == [] {
      assert first + second == second;
    } else {
      Join(k, Next(k, s, first[0]), first[1..], second);
      assert (first + second)[1..] == first[1..] + second;
    }
  }
}
