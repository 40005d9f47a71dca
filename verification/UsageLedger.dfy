/** mixapi/repositories/usage.py and the durable half of
    mixapi/repositories/budgets.py: four PostgreSQL tables, each method one
    transaction.  Money is an integer number of 1e-8 USD, the scale of the
    NUMERIC(20, 8) columns. */
module UsageLedger {
  import opened Prelude

  datatype Status = Pending | Completed | Failed

  const BUDGET_ENDPOINT := "budget-reservation"

  datatype Intent = Intent(apiKey: string, endpoint: string, status: Status, amount: int)
  datatype Event = Event(request: string, apiKey: string, cost: int)
  datatype OutboxRow = OutboxRow(reservation: string, apiKey: string, amount: int)

  /** `intents` is keyed by the unique request_id; a budget intent's id and
      request_id are the same text. */
  datatype Db = Db(
    intents: map<string, Intent>,
    spend: map<string, int>,
    events: seq<Event>,
    outbox: seq<OutboxRow>)

  /** The outcomes of `settle_reservation`: the recorded events, the ValueError, or
      the unique-key violation that rolls the transaction back. */
  datatype SettleResult = Recorded(events: seq<Event>) | MissingReservation | UniqueViolation

  function BudgetIntentId(reservation: string): string { "budget_" + reservation }

  function Spend(db: Db, key: string): int { if key in db.spend then db.spend[key] else 0 }

  predicate SettlementExists(db: Db, reservation: string) {
    exists i | 0 <= i < |db.outbox| :: db.outbox[i].reservation == reservation
  }

  predicate IsBudgetIntent(intent: Intent, key: string) {
    intent.endpoint == BUDGET_ENDPOINT && intent.apiKey == key
  }

  predicate HasPendingBudgetIntent(db: Db, reservation: string, key: string) {
    var id := BudgetIntentId(reservation);
    id in db.intents && IsBudgetIntent(db.intents[id], key) && db.intents[id].status == Pending
  }

  /** Pending intents picked by `ids` leave `pending` for `status`. */
  function Finish(intents: map<string, Intent>, ids: set<string>, status: Status): map<string, Intent> {
    map id | id in intents ::
      if id in ids && intents[id].status == Pending then intents[id].(status := status) else intents[id]
  }

  function UsageIds(intents: map<string, Intent>, requests: set<string>): set<string> {
    set id | id in requests && id in intents && intents[id].endpoint != BUDGET_ENDPOINT
  }

  function Requests(events: seq<Event>): set<string> { set e | e in events :: e.request }

  function Settle(db: Db, reservation: string, key: string, cost: int, events: seq<Event>, tracked: bool)
    : (r: (Db, SettleResult))
  {
    var done := SettlementExists(db, reservation);
    if tracked && !HasPendingBudgetIntent(db, reservation, key) then
      (db, if done then Recorded([]) else MissingReservation)
    else if done then
      (db, if tracked then UniqueViolation else Recorded([]))
    else
      var claimed := if tracked then Finish(db.intents, {BudgetIntentId(reservation)}, Completed) else db.intents;
      (Db(Finish(claimed, UsageIds(claimed, Requests(events)), Completed),
          db.spend[key := Spend(db, key) + cost],
          db.events + events,
          db.outbox + [OutboxRow(reservation, key, cost)]),
       Recorded(events))
  }

  /** The rows that the durable `reserve` sums under its row lock. */
  ghost function PendingAmounts(db: Db, key: string): map<string, int> {
    map id | id in db.intents && IsBudgetIntent(db.intents[id], key) && db.intents[id].status == Pending
      :: db.intents[id].amount
  }

  ghost function DurableReserve(db: Db, reservation: string, key: string, amount: int, limit: int): (Db, bool) {
    var id := BudgetIntentId(reservation);
    if Spend(db, key) + Total(PendingAmounts(db, key)) + amount > limit || id in db.intents then
      (db, false)
    else
      (db.(intents := db.intents[id := Intent(key, BUDGET_ENDPOINT, Pending, amount)]), true)
  }

  function DurableRelease(db: Db, reservation: string, key: string): Db {
    var id := BudgetIntentId(reservation);
    if HasPendingBudgetIntent(db, reservation, key) then db.(intents := Finish(db.intents, {id}, Failed)) else db
  }

  function BeginIntent(db: Db, request: string, key: string, endpoint: string): Db {
    if request in db.intents then db
    else db.(intents := db.intents[request := Intent(key, endpoint, Pending, 0)])
  }

  datatype Op =
    | DoBegin(request: string, key: string, endpoint: string)
    | DoFail(ids: set<string>)
    | DoReserve(reservation: string, key: string, amount: int, limit: int)
    | DoRelease(reservation: string, key: string)
    | DoSettle(reservation: string, key: string, cost: int, events: seq<Event>, tracked: bool)

  /** `DoFail` is `fail_intent` (one id) and `fail_expired_intents` (the stale ids). */
  ghost function Apply(db: Db, op: Op): Db {
    match op
    case DoBegin(request, key, endpoint) => BeginIntent(db, request, key, endpoint)
    case DoFail(ids) => db.(intents := Finish(db.intents, ids, Failed))
    case DoReserve(reservation, key, amount, limit) => DurableReserve(db, reservation, key, amount, limit).0
    case DoRelease(reservation, key) => DurableRelease(db, reservation, key)
    case DoSettle(reservation, key, cost, events, tracked) => Settle(db, reservation, key, cost, events, tracked).0
  }

  ghost function Run(db: Db, ops: seq<Op>): Db
    decreases |ops|
  {
    if ops == [] then db else Apply(Run(db, ops[..|ops| - 1]), ops[|ops| - 1])
  }

  // ------------------------------------------------------------- what one call does

  /** What a settlement may touch besides intents. */
  ghost predicate SameMoney(a: Db, b: Db) { a.spend == b.spend && a.events == b.events && a.outbox == b.outbox }

  /** What becomes of an intent that a statement selects or does not select. */
  ghost predicate Becomes(was: Intent, now: Intent, selected: bool, status: Status) {
    && now.apiKey == was.apiKey && now.endpoint == was.endpoint && now.amount == was.amount
    && now.status == if selected && was.status == Pending then status else was.status
  }

  ghost predicate IntentsSettled(db: Db, after: Db, reservation: string, events: seq<Event>, tracked: bool) {
    && after.intents.Keys == db.intents.Keys
    && forall id :: id in db.intents ==>
         Becomes(db.intents[id], after.intents[id],
                 || (tracked && id == "budget_" + reservation)
                 || (db.intents[id].endpoint != "budget-reservation" && exists e :: e in events && e.request == id),
                 Completed)
  }

  ghost predicate MoneyBooked(db: Db, after: Db, reservation: string, key: string, cost: int, events: seq<Event>) {
    && after.spend.Keys == db.spend.Keys + {key}
    && after.spend[key] == cost + (if key in db.spend then db.spend[key] else 0)
    && (forall k :: k in db.spend && k != key ==> after.spend[k] == db.spend[k])
    && after.events == db.events + events
    && after.outbox == db.outbox + [OutboxRow(reservation, key, cost)]
  }

  lemma {:induction false} FirstSettlementCompletes(
      db: Db, reservation: string, key: string, cost: int, events: seq<Event>, tracked: bool)
    requires !SettlementExists(db, reservation) && (tracked ==> HasPendingBudgetIntent(db, reservation, key))
    ensures IntentsSettled(db, Settle(db, reservation, key, cost, events, tracked).0, reservation, events, tracked)
  {
  }

  /** The first settlement of a reservation, untracked or with its pending row, books the
      cost, the events and one outbox row, completes that row and every pending usage intent
      of the events' requests, and touches no other key or intent. */
  lemma {:induction false} FirstSettlementBooks(
      db: Db, reservation: string, key: string, cost: int, events: seq<Event>, tracked: bool)
    requires !SettlementExists(db, reservation) && (tracked ==> HasPendingBudgetIntent(db, reservation, key))
    ensures var (after, result) := Settle(db, reservation, key, cost, events, tracked);
      && result == Recorded(events)
      && MoneyBooked(db, after, reservation, key, cost, events)
      && IntentsSettled(db, after, reservation, events, tracked)
  {
    FirstSettlementCompletes(db, reservation, key, cost, events, tracked);
  }

  /** Every other call leaves the tables alone; which answer it gives. */
  lemma {:induction false} OtherSettlementsChangeNothing(
      db: Db, reservation: string, key: string, cost: int, events: seq<Event>, tracked: bool)
    requires SettlementExists(db, reservation) || (tracked && !HasPendingBudgetIntent(db, reservation, key))
    ensures var (after, result) := Settle(db, reservation, key, cost, events, tracked);
      && after == db
      && (result == Recorded([]) <==>
            SettlementExists(db, reservation) && (!tracked || !HasPendingBudgetIntent(db, reservation, key)))
      && (result == UniqueViolation
          <==> SettlementExists(db, reservation) && tracked && HasPendingBudgetIntent(db, reservation, key))
      && (result == MissingReservation <==> !SettlementExists(db, reservation))
  {
  }

  /** `reserve` admits exactly what fits beside the spend and the pending amounts under a new
      id, and then adds one pending row. */
  lemma {:induction false} ReserveAddsRow(db: Db, reservation: string, key: string, amount: int, limit: int)
    ensures var (after, admitted) := DurableReserve(db, reservation, key, amount, limit);
            var id := "budget_" + reservation;
      && (admitted <==>
            && (if key in db.spend then db.spend[key] else 0) + Total(PendingAmounts(db, key)) + amount <= limit
            && id !in db.intents)
      && SameMoney(after, db)
      && after.intents
           == if admitted then db.intents[id := Intent(key, "budget-reservation", Pending, amount)] else db.intents
    ensures forall id :: id in PendingAmounts(db, key) <==>
      && id in db.intents && db.intents[id].endpoint == "budget-reservation"
      && db.intents[id].apiKey == key && db.intents[id].status == Pending
    ensures forall id :: id in PendingAmounts(db, key) ==> PendingAmounts(db, key)[id] == db.intents[id].amount
  {
  }

  ghost predicate IntentsBecome(db: Db, after: Db, ids: set<string>, status: Status) {
    && SameMoney(after, db) && after.intents.Keys == db.intents.Keys
    && forall id :: id in db.intents ==> Becomes(db.intents[id], after.intents[id], id in ids, status)
  }

  /** Failing turns the chosen pending intents to failed, releasing the reservation's own row
      if it is pending for that key, and beginning adds a pending intent under a new id. */
  lemma {:induction false} IntentsBeginAndFail(
      db: Db, ids: set<string>, reservation: string, key: string, request: string, endpoint: string)
    ensures IntentsBecome(db, Apply(db, DoFail(ids)), ids, Failed)
    ensures IntentsBecome(db, Apply(db, DoRelease(reservation, key)),
                          if HasPendingBudgetIntent(db, reservation, key) then {"budget_" + reservation} else {},
                          Failed)
    ensures SameMoney(BeginIntent(db, request, key, endpoint), db)
    ensures BeginIntent(db, request, key, endpoint).intents
         == if request in db.intents then db.intents else db.intents[request := Intent(key, endpoint, Pending, 0)]
  {
  }

  /** A call that settles: the first of its reservation, untracked or with its row. */
  ghost predicate Settles(db: Db, op: Op) {
    op.DoSettle? && !SettlementExists(db, op.reservation) && (op.tracked ==>
                                                                HasPendingBudgetIntent(db, op.reservation, op.key))
  }

  /** Money moves exactly in a settlement of an unsettled reservation, and then in all
      three tables. */
  lemma {:induction false} MoneyMoves(db: Db, op: Op)
    ensures !SameMoney(Apply(db, op), db) <==> Settles(db, op)
    ensures Settles(db, op) ==>
      && Apply(db, op).spend == db.spend[op.key := Spend(db, op.key) + op.cost]
      && Apply(db, op).events == db.events + op.events
      && Apply(db, op).outbox == db.outbox + [OutboxRow(op.reservation, op.key, op.cost)]
  {
  }

  lemma {:induction false} SettledStep(db: Db, op: Op, reservation: string)
    ensures SettlementExists(Apply(db, op), reservation)
       <==> SettlementExists(db, reservation) || (Settles(db, op) && op.reservation == reservation)
  {
    MoneyMoves(db, op);
    var was, now := db.outbox, Apply(db, op).outbox;
    if SettlementExists(db, reservation) {
      var i :| 0 <= i < |was| && was[i].reservation == reservation;
      assert now[i].reservation == reservation;
    }
    if Settles(db, op) { assert now[|now| - 1].reservation == op.reservation; }
  }

  ghost predicate SettlesAt(db: Db, ops: seq<Op>, i: nat, reservation: string) {
    i < |ops| && Settles(Run(db, ops[..i]), ops[i]) && ops[i].reservation == reservation
  }

  lemma {:induction false} SettlesAtPrefix(db: Db, ops: seq<Op>, i: nat, n: nat, reservation: string)
    requires i < n <= |ops|
    ensures SettlesAt(db, ops[..n], i, reservation) <==> SettlesAt(db, ops, i, reservation)
  {
    assert ops[..n][..i] == ops[..i];
  }

  /** Over every run a reservation is settled exactly if it was to begin with or some call
      settled it. */
  lemma {:induction false} SettledIff(db: Db, ops: seq<Op>, reservation: string)
    ensures SettlementExists(Run(db, ops), reservation)
       <==> SettlementExists(db, reservation) || exists i :: SettlesAt(db, ops, i, reservation)
    decreases |ops|
  {
    if ops != [] {
      var n := |ops| - 1;
      SettledIff(db, ops[..n], reservation);
      SettledStep(Run(db, ops[..n]), ops[n], reservation);
      forall i: nat | i < n ensures SettlesAt(db, ops[..n], i, reservation) <==> SettlesAt(db, ops, i, reservation) {
        SettlesAtPrefix(db, ops, i, n, reservation);
      }
      assert SettlesAt(db, ops, n, reservation) <==>
        Settles(Run(db, ops[..n]), ops[n]) && ops[n].reservation == reservation;
    }
  }

  /** So an untracked call always leaves its reservation settled, and a tracked one does if
      its row was pending. */
  lemma {:induction false} CallLeavesSettled(db: Db, ops: seq<Op>, i: nat)
    requires i < |ops| && ops[i].DoSettle?
    requires ops[i].tracked ==> HasPendingBudgetIntent(Run(db, ops[..i]), ops[i].reservation, ops[i].key)
    ensures SettlementExists(Run(db, ops), ops[i].reservation)
  {
    var reservation := ops[i].reservation;
    SettledIff(db, ops[..i], reservation);
    SettledIff(db, ops, reservation);
    if SettlementExists(Run(db, ops[..i]), reservation) && !SettlementExists(db, reservation) {
      var k :| SettlesAt(db, ops[..i], k, reservation);
      SettlesAtPrefix(db, ops, k, i, reservation);
    } else if !SettlementExists(db, reservation) {
      assert SettlesAt(db, ops, i, reservation);
    }
  }

  // ---------------------------------------------------------------- exactly once

  lemma {:induction false} SettlementsStay(db: Db, ops: seq<Op>, i: nat, reservation: string)
    requires i <= |ops| && SettlementExists(Run(db, ops[..i]), reservation)
    ensures SettlementExists(Run(db, ops), reservation)
    decreases |ops|
  {
    if i == |ops| {
      assert ops[..i] == ops;
    } else {
      var before := ops[..|ops| - 1];
      assert before[..i] == ops[..i];
      SettlementsStay(db, before, i, reservation);
      var was, now := Run(db, before).outbox, Run(db, ops).outbox;
      assert was <= now;
      var k :| 0 <= k < |was| && was[k].reservation == reservation;
      assert now[k].reservation == reservation;
    }
  }

  lemma {:induction false} SettledIsFinal(db: Db, op: Op)
    requires op.DoSettle? && SettlementExists(db, op.reservation)
    ensures Apply(db, op) == db
  {
  }

  lemma {:induction false} RunNext(db: Db, ops: seq<Op>, i: nat)
    requires i < |ops|
    ensures Run(db, ops[..i + 1]) == Apply(Run(db, ops[..i]), ops[i])
  {
    assert ops[..i + 1][..i] == ops[..i];
  }

  lemma {:induction false} MovedMoneySettles(db: Db, op: Op)
    requires op.DoSettle? && !SameMoney(Apply(db, op), db)
    ensures SettlementExists(Apply(db, op), op.reservation)
  {
    MoneyMoves(db, op);
    var rows := Apply(db, op).outbox;
    assert rows[|rows| - 1].reservation == op.reservation;
  }

  /** Exactly-once settlement: once a call has settled a reservation id, no later call
      for that id, tracked or not, repeated or racing, changes spend, events or outbox;
      and a call that changes none of them leaves the intents alone too. */
  lemma {:induction false} SettlesAtMostOnce(db: Db, ops: seq<Op>, i: nat, j: nat)
    requires i < j < |ops| && ops[i].DoSettle? && ops[j].DoSettle? && ops[i].reservation == ops[j].reservation
    requires !SameMoney(Run(db, ops[..i + 1]), Run(db, ops[..i]))
    ensures Run(db, ops[..j + 1]) == Run(db, ops[..j])
  {
    RunNext(db, ops, i);
    MovedMoneySettles(Run(db, ops[..i]), ops[i]);
    assert ops[..j][..i + 1] == ops[..i + 1];
    SettlementsStay(db, ops[..j], i + 1, ops[i].reservation);
    RunNext(db, ops, j);
    SettledIsFinal(Run(db, ops[..j]), ops[j]);
  }

  lemma {:induction false} ApplyKeepsFinished(db: Db, op: Op, id: string)
    requires id in db.intents && db.intents[id].status != Pending
    ensures id in Apply(db, op).intents && Apply(db, op).intents[id] == db.intents[id]
  {
  }

  /** An intent leaves `pending` at most once: whatever it became, it stays. */
  lemma {:induction false} IntentLeavesPendingOnce(db: Db, ops: seq<Op>, i: nat, id: string)
    requires i <= |ops| && id in Run(db, ops[..i]).intents && Run(db, ops[..i]).intents[id].status != Pending
    ensures id in Run(db, ops).intents && Run(db, ops).intents[id] == Run(db, ops[..i]).intents[id]
    decreases |ops|
  {
    if i == |ops| {
      assert ops[..i] == ops;
    } else {
      var before := ops[..|ops| - 1];
      assert before[..i] == ops[..i];
      IntentLeavesPendingOnce(db, before, i, id);
      ApplyKeepsFinished(Run(db, before), ops[|ops| - 1], id);
    }
  }

  // ------------------------------------------------------------ the books agree

  function OutboxTotal(rows: seq<OutboxRow>, key: string): int
    decreases |rows|
  {
    if rows == [] then 0
    else
      var last := rows[|rows| - 1];
      OutboxTotal(rows[..|rows| - 1], key) + if last.apiKey == key then last.amount else 0
  }

  function EventTotal(events: seq<Event>, key: string): int
    decreases |events|
  {
    if events == [] then 0
    else
      var last := events[|events| - 1];
      EventTotal(events[..|events| - 1], key) + if last.apiKey == key then last.cost else 0
  }

  lemma {:induction false} EventTotalAppend(a: seq<Event>, b: seq<Event>, key: string)
    ensures EventTotal(a + b, key) == EventTotal(a, key) + EventTotal(b, key)
    decreases |b|
  {
    if b == [] {
      assert a + b == a;
    } else {
      assert (a + b)[..|a + b| - 1] == a + b[..|b| - 1];
      EventTotalAppend(a, b[..|b| - 1], key);
    }
  }

  /** A caller passes events of the reservation's own key and the sum of their costs
      as the amount (mixapi/app.py:1925-1990). */
  predicate HonestSettle(op: Op) {
    op.DoSettle? ==>
      && (forall i :: 0 <= i < |op.events| ==> op.events[i].apiKey == op.key)
      && op.cost == EventTotal(op.events, op.key)
  }

  lemma {:induction false} EventTotalOther(events: seq<Event>, owner: string, key: string)
    requires forall i :: 0 <= i < |events| ==> events[i].apiKey == owner
    requires owner != key
    ensures EventTotal(events, key) == 0
    decreases |events|
  {
    if events != [] { EventTotalOther(events[..|events| - 1], owner, key); }
  }

  /** For every key and every run, what a key's spend gained is what its settlement
      outbox rows gained and what its usage events gained. */
  lemma {:induction false} BooksAgree(db: Db, ops: seq<Op>, key: string)
    ensures Spend(Run(db, ops), key) - Spend(db, key)
         == OutboxTotal(Run(db, ops).outbox, key) - OutboxTotal(db.outbox, key)
    ensures (forall i :: 0 <= i < |ops| ==> HonestSettle(ops[i]))
      ==> (OutboxTotal(Run(db, ops).outbox, key) - OutboxTotal(db.outbox, key)
        == EventTotal(Run(db, ops).events, key) - EventTotal(db.events, key))
    decreases |ops|
  {
    if ops != [] {
      var before, op := ops[..|ops| - 1], ops[|ops| - 1];
      BooksAgree(db, before, key);
      var was, now := Run(db, before), Run(db, ops);
      if !SameMoney(was, now) {
        MoneyMoves(was, op);
        assert now.outbox[..|now.outbox| - 1] == was.outbox;
        EventTotalAppend(was.events, op.events, key);
        if HonestSettle(op) && key != op.key {
          EventTotalOther(op.events, op.key, key);
        }
      }
    }
  }

  // --------------------------------------------------------- the durable spend cap

  /** One key under one limit, reserved and settled through the durable service alone:
      amounts are not negative and a settlement costs at most its reservation. */
  ghost predicate CappedOp(db: Db, op: Op, key: string, limit: int) {
    match op
    case DoBegin(_, _, endpoint) => endpoint != BUDGET_ENDPOINT
    case DoFail(_) => true
    case DoReserve(_, k, amount, l) => k == key ==> amount >= 0 && l == limit
    case DoRelease(_, _) => true
    case DoSettle(reservation, k, cost, _, tracked) =>
      k == key
      ==> && tracked
          && (HasPendingBudgetIntent(db, reservation, key) ==> cost <= db.intents[BudgetIntentId(reservation)].amount)
  }

  ghost predicate CappedRun(db: Db, ops: seq<Op>, key: string, limit: int) {
    forall i :: 0 <= i < |ops| ==> CappedOp(Run(db, ops[..i]), ops[i], key, limit)
  }

  ghost function Exposure(db: Db, key: string): int { Spend(db, key) + Total(PendingAmounts(db, key)) }

  ghost predicate AmountsNonNegative(db: Db, key: string) {
    forall id :: id in PendingAmounts(db, key) ==> PendingAmounts(db, key)[id] >= 0
  }

  /** Failing or releasing intents only takes amounts out of the pending sum. */
  lemma {:induction false} DroppingIsSafe(db: Db, db': Db, key: string)
    requires AmountsNonNegative(db, key)
    requires PendingAmounts(db', key)
         == PendingAmounts(db, key) - (PendingAmounts(db, key).Keys - PendingAmounts(db', key).Keys)
    ensures Total(PendingAmounts(db', key)) <= Total(PendingAmounts(db, key))
    ensures AmountsNonNegative(db', key)
  {
    var gone := PendingAmounts(db, key).Keys - PendingAmounts(db', key).Keys;
    TotalSplit(PendingAmounts(db, key), gone);
    TotalNonNegative(Restrict(PendingAmounts(db, key), gone));
  }

  lemma {:induction false} CappedStep(db: Db, op: Op, key: string, limit: int)
    requires AmountsNonNegative(db, key) && CappedOp(db, op, key, limit)
    ensures AmountsNonNegative(Apply(db, op), key)
    ensures Exposure(Apply(db, op), key) <= Max(Exposure(db, key), limit)
  {
    if op.DoReserve? && op.key == key {
      ReserveStep(db, op, key, limit);
    } else if op.DoSettle? && op.key == key {
      SettleStep(db, op, key, limit);
    } else {
      OtherStep(db, op, key, limit);
    }
  }

  lemma {:induction false} ReserveStep(db: Db, op: Op, key: string, limit: int)
    requires op.DoReserve? && op.key == key
    requires AmountsNonNegative(db, key) && CappedOp(db, op, key, limit)
    ensures AmountsNonNegative(Apply(db, op), key)
    ensures Exposure(Apply(db, op), key) <= Max(Exposure(db, key), limit)
  {
    var id := BudgetIntentId(op.reservation);
    if DurableReserve(db, op.reservation, key, op.amount, op.limit).1 {
      assert PendingAmounts(Apply(db, op), key) == PendingAmounts(db, key)[id := op.amount];
      TotalAdd(PendingAmounts(db, key), id, op.amount);
    }
  }

  lemma {:induction false} SettleStep(db: Db, op: Op, key: string, limit: int)
    requires op.DoSettle? && op.key == key
    requires AmountsNonNegative(db, key) && CappedOp(db, op, key, limit)
    ensures AmountsNonNegative(Apply(db, op), key)
    ensures Exposure(Apply(db, op), key) <= Max(Exposure(db, key), limit)
  {
    var id := BudgetIntentId(op.reservation);
    if !SameMoney(Apply(db, op), db) {
      MoneyMoves(db, op);
      SettledPending(db, op, key);
      TotalRemove(PendingAmounts(db, key), id);
    } else {
      assert Apply(db, op) == db;
    }
  }

  /** A settlement takes its own reservation, and nothing else, out of the pending sum. */
  lemma {:induction false} SettledPending(db: Db, op: Op, key: string)
    requires op.DoSettle? && op.tracked && op.key == key && !SameMoney(Apply(db, op), db)
    ensures HasPendingBudgetIntent(db, op.reservation, key)
    ensures PendingAmounts(Apply(db, op), key) == PendingAmounts(db, key) - {BudgetIntentId(op.reservation)}
  {
  }

  lemma {:induction false} OtherStep(db: Db, op: Op, key: string, limit: int)
    requires op.DoReserve? || op.DoSettle? ==> op.key != key
    requires AmountsNonNegative(db, key) && CappedOp(db, op, key, limit)
    ensures AmountsNonNegative(Apply(db, op), key)
    ensures Exposure(Apply(db, op), key) <= Exposure(db, key)
  {
    OtherPending(db, op, key, limit);
    DroppingIsSafe(db, Apply(db, op), key);
    if !SameMoney(Apply(db, op), db) { MoneyMoves(db, op); }
  }

  lemma {:induction false} OtherPending(db: Db, op: Op, key: string, limit: int)
    requires op.DoReserve? || op.DoSettle? ==> op.key != key
    requires CappedOp(db, op, key, limit)
    ensures var p, q := PendingAmounts(db, key), PendingAmounts(Apply(db, op), key); q == p - (p.Keys - q.Keys)
  {
    var p, q := PendingAmounts(db, key), PendingAmounts(Apply(db, op), key);
    assert forall id :: id in q ==> id in p && q[id] == p[id];
  }

  /** Reservations taken under the row lock never let spend plus pending amounts pass
      the limit, unless they had passed it to begin with. */
  lemma {:induction false} DurableCap(db: Db, ops: seq<Op>, key: string, limit: int)
    requires AmountsNonNegative(db, key) && CappedRun(db, ops, key, limit)
    ensures AmountsNonNegative(Run(db, ops), key)
    ensures Exposure(Run(db, ops), key) <= Max(Exposure(db, key), limit)
    decreases |ops|
  {
    if ops != [] {
      var before := ops[..|ops| - 1];
      forall i | 0 <= i < |before| ensures CappedOp(Run(db, before[..i]), before[i], key, limit) {
        assert before[..i] == ops[..i];
      }
      DurableCap(db, before, key, limit);
      CappedStep(Run(db, before), ops[|ops| - 1], key, limit);
    }
  }

  // ------------------------------------------------------------------ the tables

  class Tables {
    var intents: map<string, Intent>
    var spend: map<string, int>
    var events: seq<Event>
    var outbox: seq<OutboxRow>

    ghost function State(): Db
      reads this
    {
      Db(intents, spend, events, outbox)
    }

    constructor ()
      ensures State() == Db(map[], map[], [], [])
    {
      intents, spend, events, outbox := map[], map[], [], [];
    }

    method BeginUsageIntent(request: string, key: string, endpoint: string)
      modifies this`intents
      ensures State() == BeginIntent(old(State()), request, key, endpoint)
    {
      if request !in intents {
        intents := intents[request := Intent(key, endpoint, Pending, 0)];
      }
    }

    method FindSettlement(reservation: string) returns (found: bool)
      ensures found == SettlementExists(State(), reservation)
      ensures found <==> exists i | 0 <= i < |outbox| :: outbox[i].reservation == reservation
    {
      found := false;
      for i := 0 to |outbox|
        invariant found == exists k | 0 <= k < i :: outbox[k].reservation == reservation
      {
        if outbox[i].reservation == reservation { found := true; }
      }
    }

    method SettleReservation(reservation: string, key: string, cost: int, newEvents: seq<Event>, tracked: bool)
      returns (result: SettleResult)
      modifies this
      ensures (State(), result) == Settle(old(State()), reservation, key, cost, newEvents, tracked)
    {
      var settled := FindSettlement(reservation);
      var id := BudgetIntentId(reservation);
      var claimed := intents;
      if tracked {
        if id in intents && IsBudgetIntent(intents[id], key) && intents[id].status == Pending {
          claimed := intents[id := intents[id].(status := Completed)];
          assert claimed == Finish(intents, {id}, Completed);
        } else {
          return if settled then Recorded([]) else MissingReservation;
        }
      } else if settled {
        return Recorded([]);
      }
      if settled { return UniqueViolation; }
      ghost var was := events;
      for i := 0 to |newEvents|
        invariant events == was + newEvents[..i]
        invariant intents == old(intents) && spend == old(spend) && outbox == old(outbox)
      {
        events := events + [newEvents[i]];
      }
      assert newEvents[..|newEvents|] == newEvents;
      spend := spend[key := (if key in spend then spend[key] else 0) + cost];
      outbox := outbox + [OutboxRow(reservation, key, cost)];
      intents := CompleteUsage(claimed, Requests(newEvents));
      result := Recorded(newEvents);
    }

    /** The closing loop of a settlement: one UPDATE per request id. */
    static method CompleteUsage(start: map<string, Intent>, requests: set<string>) returns (r: map<string, Intent>)
      ensures r == Finish(start, UsageIds(start, requests), Completed)
    {
      r := start;
      var todo := requests;
      while todo != {}
        invariant todo <= requests
        invariant r == Finish(start, UsageIds(start, requests - todo), Completed)
        decreases todo
      {
        var request :| request in todo;
        todo := todo - {request};
        if request in r && r[request].endpoint != BUDGET_ENDPOINT && r[request].status == Pending {
          r := r[request := r[request].(status := Completed)];
        }
      }
      assert requests - todo == requests;
    }
  }
}
