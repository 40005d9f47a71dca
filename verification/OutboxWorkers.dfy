/** The two outbox workers: `ConfigurationOutboxWorker.run_once` (mixapi/workers.py)
    and `RedisBudgetService.reconcile_pending` (mixapi/runtime/budget.py), each beside
    other workers, publishers and requests that use the same rows. */
module OutboxWorkers {
  import opened Prelude
  import opened OutboxLease
  import B = BudgetScripts

  /** `publish` returned, raised PublicationError, or raised anything else. */
  datatype Outcome = Published | Rejected | Broke

  function ClaimableIds(rows: Rows, now: int): set<nat> { set id | id in rows && Claimable(rows[id], now) }

  ghost function Topics(rows: Rows, ids: seq<nat>): set<string>
    decreases |ids|
  {
    if ids == [] then {} else
      var last := ids[|ids| - 1];
      Topics(rows, ids[..|ids| - 1]) + if last in rows then {rows[last].topic} else {}
  }

  /** `ORDER BY id LIMIT n` over the claimable rows. */
  ghost predicate LowestClaimable(rows: Rows, now: int, limit: nat, ids: seq<nat>) {
    && |ids| <= limit
    && (forall i, j :: 0 <= i < j < |ids| ==> ids[i] < ids[j])
    && (forall id :: id in ids ==> id in ClaimableIds(rows, now))
    && (forall id :: id in ClaimableIds(rows, now) && id !in ids ==>
          |ids| == limit && forall i :: 0 <= i < |ids| ==> ids[i] < id)
  }

  /** Claimed so far: the lowest claimable ids, all below the rest. */
  ghost predicate Lowest(claimable: set<nat>, ids: seq<nat>, rest: set<nat>) {
    && (forall i, j :: 0 <= i < j < |ids| ==> ids[i] < ids[j])
    && (forall id :: id in claimable <==> id in ids || id in rest)
    && (forall i, id :: 0 <= i < |ids| && id in rest ==> ids[i] < id)
  }

  method TakeLeast(ghost claimable: set<nat>, ids: seq<nat>, rest: set<nat>) returns (least: nat)
    requires Lowest(claimable, ids, rest) && rest != {}
    ensures least in rest && Lowest(claimable, ids + [least], rest - {least})
  {
    LeastExists(rest);
    least :| least in rest && forall id :: id in rest ==> least <= id;
  }

  method ClaimRows(rows: Rows, now: int, limit: nat) returns (ids: seq<nat>)
    ensures LowestClaimable(rows, now, limit, ids)
    ensures forall i :: 0 <= i < |ids| ==> ids[i] in rows
  {
    ids := [];
    var rest := ClaimableIds(rows, now);
    while rest != {} && |ids| < limit
      invariant |ids| <= limit && Lowest(ClaimableIds(rows, now), ids, rest)
      decreases rest
    {
      var least := TakeLeast(ClaimableIds(rows, now), ids, rest);
      ids := ids + [least];
      rest := rest - {least};
    }
    assert forall i :: 0 <= i < |ids| ==> ids[i] in ids;
  }

  /** What goes on around a pass: the time its event `i` takes, and what others leave of
      the rows by then. */
  datatype Around = Around(elapsed: nat -> nat, others: (nat, Rows, int) -> Rows)

  /** Others respect this worker's lasting leases, as `OthersRely` says they do. */
  ghost predicate Reliable(around: Around, worker: string) {
    forall i: nat, rows: Rows, now: int :: Rely(rows, around.others(i, rows, now), worker, now)
  }

  function FinishedIn(before: Rows, after: Rows): set<nat> {
    set id | id in before && !before[id].processed && id in after && after[id].processed
  }

  /** One pass of a worker over the events it claimed; `finished` are the rows that others
      finished meanwhile. */
  datatype Pass = Pass(rows: Rows, now: int, seen: set<string>, processed: nat, finished: set<nat>)

  function Meanwhile(p: Pass, i: nat, around: Around): Pass {
    var now := p.now + around.elapsed(i);
    var rows := around.others(i, p.rows, now);
    p.(rows := rows, now := now, finished := p.finished + FinishedIn(p.rows, rows))
  }

  // ------------------------------------------------------------- configuration events

  function PublishOne(p: Pass, i: nat, id: nat, worker: string, publish: string -> Outcome, around: Around): Pass
    requires id in p.rows
  {
    var topic := p.rows[id].topic;
    if topic in p.seen then p else
      var q := Meanwhile(p, i, around).(seen := p.seen + {topic});
      if publish(topic) != Broke && Owns(q.rows, id, worker, q.now)
      then q.(rows := CloseTopic(q.rows, topic), processed := p.processed + 1)
      else q.(rows := Release(q.rows, id, worker))
  }

  ghost function PublishAll(
      p: Pass, events: seq<nat>, worker: string, publish: string -> Outcome, around: Around): (r: Pass)
    requires Reliable(around, worker) && forall i :: 0 <= i < |events| ==> events[i] in p.rows
    ensures p.rows.Keys <= r.rows.Keys
    decreases |events|
  {
    if events == [] then p else
      var n := |events| - 1;
      var was := PublishAll(p, events[..n], worker, publish, around);
      assert events[n] in was.rows;
      assert Rely(was.rows, around.others(n, was.rows, was.now + around.elapsed(n)), worker,
                  was.now + around.elapsed(n));
      PublishOne(was, n, events[n], worker, publish, around)
  }

  /** Rows once known keep their topic, and are finished exactly if they were, if this
      worker closed their version, or if others finished them. */
  ghost predicate FinishedBy(first: Rows, p: Pass, id: nat, mine: bool)
    requires id in first
  {
    && id in p.rows && p.rows[id].topic == first[id].topic
    && (p.rows[id].processed <==> first[id].processed || mine || id in p.finished)
  }

  /** A claimed row is finished or carries this worker's lease. */
  predicate Kept(rows: Rows, id: nat, worker: string, until: int) {
    id in rows && (rows[id].processed || (rows[id].claimedBy == Some(worker) && rows[id].expires == Some(until)))
  }

  /** This worker closed the versions in `done`, and keeps the claimed events of versions
      not yet seen. */
  ghost predicate PassSoFar(first: Rows, p: Pass, claimed: seq<nat>, worker: string, until: int, done: set<string>) {
    && done <= p.seen && p.processed == |done|
    && (forall id :: id in first ==> FinishedBy(first, p, id, first[id].topic in done))
    && (p.now <= until ==>
          forall id :: id in claimed && id in first && first[id].topic !in p.seen ==> Kept(p.rows, id, worker, until))
  }

  ghost predicate ClaimedOpen(first: Rows, claimed: seq<nat>) {
    forall id :: id in claimed ==> id in first && !first[id].processed
  }

  ghost predicate FinishedEvent(first: Rows, claimed: seq<nat>, finished: set<nat>, topic: string) {
    exists id :: id in claimed && id in first && first[id].topic == topic && id in finished
  }

  /** In time, every version seen whose publication did not break is closed by this worker
      or has a claimed event that others finished. */
  ghost predicate InTime(
      first: Rows, p: Pass, claimed: seq<nat>, until: int, publish: string -> Outcome, done: set<string>) {
    p.now <= until ==>
      forall topic :: topic in p.seen && publish(topic) != Broke ==>
        topic in done || FinishedEvent(first, claimed, p.finished, topic)
  }

  /** Waiting beside others keeps what is known. */
  lemma {:induction false} MeanwhileKeeps(
      first: Rows, p: Pass, i: nat, claimed: seq<nat>, worker: string, until: int, around: Around, done: set<string>)
    requires Reliable(around, worker) && PassSoFar(first, p, claimed, worker, until, done)
    ensures PassSoFar(first, Meanwhile(p, i, around), claimed, worker, until, done)
    ensures p.finished <= Meanwhile(p, i, around).finished && p.now <= Meanwhile(p, i, around).now
  {
    var q := Meanwhile(p, i, around);
    assert Rely(p.rows, q.rows, worker, q.now);
    forall id | id in first ensures FinishedBy(first, q, id, first[id].topic in done) {
      assert FinishedBy(first, p, id, first[id].topic in done);
    }
    forall id | q.now <= until && id in claimed && id in first && first[id].topic !in q.seen
      ensures Kept(q.rows, id, worker, until)
    {
      assert Kept(p.rows, id, worker, until);
    }
  }

  /** After waiting, this worker closes the version or releases the event. */
  lemma {:induction false} DecisionKeeps(
      first: Rows, q: Pass, r: Pass, claimed: seq<nat>, id: nat, worker: string, until: int, done: set<string>,
      next: set<string>)
    requires PassSoFar(first, q, claimed, worker, until, done) && id in first && first[id].topic !in q.seen
    requires r.now == q.now && r.seen == q.seen + {first[id].topic} && r.finished == q.finished
    requires || (r.rows == CloseTopic(q.rows, first[id].topic) && r.processed == q.processed + 1
                 && next == done + {first[id].topic})
             || (r.rows == Release(q.rows, id, worker) && r.processed == q.processed && next == done)
    ensures PassSoFar(first, r, claimed, worker, until, next)
  {
    forall k | k in first ensures FinishedBy(first, r, k, first[k].topic in next) {
      assert FinishedBy(first, q, k, first[k].topic in done);
    }
    forall k | r.now <= until && k in claimed && k in first && first[k].topic !in r.seen
      ensures Kept(r.rows, k, worker, until)
    {
      assert Kept(q.rows, k, worker, until);
      assert FinishedBy(first, q, k, first[k].topic in done);
    }
  }

  lemma {:induction false} PassStep(
      first: Rows, p: Pass, i: nat, claimed: seq<nat>, id: nat, worker: string, until: int,
      publish: string -> Outcome, around: Around, done: set<string>) returns (next: set<string>)
    requires Reliable(around, worker) && ClaimedOpen(first, claimed) && id in claimed && id in first && id in p.rows
    requires PassSoFar(first, p, claimed, worker, until, done) && InTime(first, p, claimed, until, publish, done)
    requires forall topic :: topic in done ==> publish(topic) != Broke
    ensures var r := PublishOne(p, i, id, worker, publish, around);
            && r.now >= p.now && r.seen == p.seen + {first[id].topic}
            && PassSoFar(first, r, claimed, worker, until, next)
            && InTime(first, r, claimed, until, publish, next)
    ensures forall topic :: topic in next ==> publish(topic) != Broke
  {
    var topic := first[id].topic;
    assert FinishedBy(first, p, id, topic in done);
    next := done;
    if topic !in p.seen {
      var q := Meanwhile(p, i, around);
      MeanwhileKeeps(first, p, i, claimed, worker, until, around, done);
      var r := PublishOne(p, i, id, worker, publish, around);
      if r.processed > p.processed { next := done + {topic}; }
      DecisionKeeps(first, q, r, claimed, id, worker, until, done, next);
      StepInTime(first, p, q, r, claimed, id, worker, until, publish, done, next);
    }
  }

  lemma {:induction false} StepInTime(
      first: Rows, p: Pass, q: Pass, r: Pass, claimed: seq<nat>, id: nat, worker: string, until: int,
      publish: string -> Outcome, done: set<string>, next: set<string>)
    requires ClaimedOpen(first, claimed) && id in claimed && id in first && first[id].topic !in q.seen
    requires PassSoFar(first, q, claimed, worker, until, done) && InTime(first, p, claimed, until, publish, done)
    requires p.now <= q.now == r.now && p.finished <= q.finished == r.finished
    requires q.seen == p.seen && r.seen == p.seen + {first[id].topic}
    requires next == done + if publish(first[id].topic) != Broke && Owns(q.rows, id, worker, q.now)
                            then {first[id].topic} else {}
    ensures InTime(first, r, claimed, until, publish, next)
  {
    if r.now <= until {
      forall topic | topic in r.seen && publish(topic) != Broke
        ensures topic in next || FinishedEvent(first, claimed, r.finished, topic)
      {
        if topic in p.seen {
          assert topic in done || FinishedEvent(first, claimed, p.finished, topic);
        } else {
          assert Kept(q.rows, id, worker, until) && FinishedBy(first, q, id, topic in done);
        }
      }
    }
  }

  /** A pass publishes each claimed version once.  A version is done when publication
      ended and the worker still owned its event; that closes every event of the
      version, and no other version is closed by this worker. */
  lemma {:induction false} PassFinishesVersions(
      first: Rows, p: Pass, claimed: seq<nat>, events: seq<nat>, worker: string, until: int,
      publish: string -> Outcome, around: Around)
    returns (done: set<string>)
    requires Reliable(around, worker) && ClaimedOpen(first, claimed)
    requires PassSoFar(first, p, claimed, worker, until, {}) && p.seen == {}
    requires forall i :: 0 <= i < |events| ==> events[i] in claimed && events[i] in first && events[i] in p.rows
    ensures var r := PublishAll(p, events, worker, publish, around);
            && r.now >= p.now && r.seen == Topics(first, events)
            && PassSoFar(first, r, claimed, worker, until, done)
            && InTime(first, r, claimed, until, publish, done)
    ensures forall topic :: topic in done ==> publish(topic) != Broke
    decreases |events|
  {
    if events == [] {
      return {};
    }
    var n := |events| - 1;
    done := PassFinishesVersions(first, p, claimed, events[..n], worker, until, publish, around);
    var was := PublishAll(p, events[..n], worker, publish, around);
    done := PassStep(first, was, n, claimed, events[n], worker, until, publish, around, done);
  }

  ghost function Start(first: Rows, now: int, claimed: seq<nat>, worker: string, until: int): Pass {
    Pass(Claim(first, Elements(claimed), worker, until), now, {}, 0, {})
  }

  lemma {:induction false} PassStarts(first: Rows, now: int, limit: nat, claimed: seq<nat>, worker: string, until: int)
    requires LowestClaimable(first, now, limit, claimed)
    ensures ClaimedOpen(first, claimed)
    ensures forall i :: 0 <= i < |claimed| ==> claimed[i] in claimed && claimed[i] in first
    ensures PassSoFar(first, Start(first, now, claimed, worker, until), claimed, worker, until, {})
  {
    assert forall k :: 0 <= k < |claimed| ==> claimed[k] in claimed;
  }

  /** The guarantee of `run_once` from its claim to its count, beside any other workers
      and publishers. */
  lemma {:induction false} ConfigurationPass(
      first: Rows, now: int, limit: nat, claimed: seq<nat>, worker: string, lease: nat,
      publish: string -> Outcome, around: Around)
    returns (done: set<string>)
    requires LowestClaimable(first, now, limit, claimed) && Reliable(around, worker)
    ensures forall i :: 0 <= i < |claimed| ==> claimed[i] in first
    ensures var end := PublishAll(Start(first, now, claimed, worker, now + lease), claimed, worker, publish, around);
            && end.processed == |done| && done <= Topics(first, claimed)
            && (forall id :: id in first ==> FinishedBy(first, end, id, first[id].topic in done))
            && (forall topic :: topic in done ==> publish(topic) != Broke)
            && (end.now <= now + lease ==>
                  forall topic :: topic in Topics(first, claimed) && publish(topic) != Broke ==>
                    topic in done || FinishedEvent(first, claimed, end.finished, topic))
  {
    PassStarts(first, now, limit, claimed, worker, now + lease);
    done := PassFinishesVersions(first, Start(first, now, claimed, worker, now + lease), claimed, claimed, worker,
                                 now + lease, publish, around);
  }

  class ConfigurationWorker {
    var rows: Rows
    var now: int

    constructor (rows: Rows, now: int)
      ensures this.rows == rows && this.now == now
    {
      this.rows, this.now := rows, now;
    }

    method RunOnce(worker: string, limit: nat, lease: nat, publish: string -> Outcome, around: Around)
      returns (processed: nat, claimed: seq<nat>)
      requires Reliable(around, worker)
      modifies this
      ensures LowestClaimable(old(rows), old(now), limit, claimed)
      ensures forall i :: 0 <= i < |claimed| ==> claimed[i] in old(rows)
      ensures var end := PublishAll(Start(old(rows), old(now), claimed, worker, old(now) + lease), claimed, worker,
                                    publish, around);
              rows == end.rows && now == end.now && processed == end.processed
    {
      claimed := ClaimRows(rows, now, limit);
      rows := Claim(rows, Elements(claimed), worker, now + lease);
      processed := PublishEach(claimed, worker, publish, around);
    }

    method PublishEach(events: seq<nat>, worker: string, publish: string -> Outcome, around: Around)
      returns (processed: nat)
      requires Reliable(around, worker) && forall i :: 0 <= i < |events| ==> events[i] in rows
      modifies this
      ensures var end := PublishAll(Pass(old(rows), old(now), {}, 0, {}), events, worker, publish, around);
              rows == end.rows && now == end.now && processed == end.processed
    {
      ghost var p := Pass(rows, now, {}, 0, {});
      ghost var start := p;
      var seen: set<string> := {};
      processed := 0;
      for i := 0 to |events|
        invariant rows == p.rows && now == p.now && seen == p.seen && processed == p.processed
        invariant p == PublishAll(start, events[..i], worker, publish, around)
      {
        assert events[..i + 1][..i] == events[..i];
        var topic := rows[events[i]].topic;
        ghost var was := p;
        p := PublishOne(p, i, events[i], worker, publish, around);
        if topic !in seen {
          seen := seen + {topic};
          var closed := PublishRow(events[i], i, worker, publish, around, was);
          if closed { processed := processed + 1; }
        }
      }
      assert events[..|events|] == events;
    }

    /** One version not yet seen: its publication, while others go on, and its closing. */
    method PublishRow(id: nat, i: nat, worker: string, publish: string -> Outcome, around: Around, ghost p: Pass)
      returns (closed: bool)
      requires rows == p.rows && now == p.now && id in rows && rows[id].topic !in p.seen
      modifies this
      ensures var r := PublishOne(p, i, id, worker, publish, around);
              && rows == r.rows && now == r.now && r.seen == p.seen + {old(rows)[id].topic}
              && r.processed == p.processed + if closed then 1 else 0
    {
      var topic := rows[id].topic;
      now := now + around.elapsed(i);
      rows := around.others(i, rows, now);
      closed := publish(topic) != Broke && Owns(rows, id, worker, now);
      rows := if closed then CloseTopic(rows, topic) else Release(rows, id, worker);
    }
  }

  // ------------------------------------------------------------- budget settlements

  /** A settlement waiting in the outbox: its key and its reservation. */
  datatype Record = Record(apiKey: string, reservation: string)

  /** Where the handling of a row raises, if it does: while the spend is read or the script
      called, after the script ran, or when its completion has already been committed. */
  datatype Fault = NoFault | BeforeScript | AfterScript | AfterCompletion

  /** The durable spend read for row `i` of a pass, and whether its handling raises. */
  datatype Durable = Durable(spend: nat -> int, fault: nat -> Fault)

  function StoreOf(redis: map<string, B.Store>, key: string): B.Store { if key in redis then redis[key] else B.EMPTY }

  /** The reservations of `key` among the claimed rows. */
  ghost function IdsOf(records: nat -> Record, events: seq<nat>, key: string): set<string>
    decreases |events|
  {
    if events == [] then {} else
      var last := records(events[|events| - 1]);
      IdsOf(records, events[..|events| - 1], key) + if last.apiKey == key then {last.reservation} else {}
  }

  function FinishOne(redis: map<string, B.Store>, spend: int, record: Record): map<string, B.Store> {
    redis[record.apiKey := B.Reconcile(StoreOf(redis, record.apiKey), record.reservation, spend).0]
  }

  /** One `_RECONCILE` per claimed row, each with the durable spend read for it. */
  ghost function FinishAll(redis: map<string, B.Store>, spend: nat -> int, records: nat -> Record, events: seq<nat>)
    : map<string, B.Store>
    decreases |events|
  {
    if events == [] then redis else
      var n := |events| - 1;
      FinishOne(FinishAll(redis, spend, records, events[..n]), spend(n), records(events[n]))
  }

  /** Row `j` is the first of its reservation for this key, and the reservation is unmarked. */
  ghost predicate Writes(before: B.Store, records: nat -> Record, events: seq<nat>, key: string, j: nat) {
    && j < |events| && records(events[j]).apiKey == key
    && records(events[j]).reservation !in before.markers + IdsOf(records, events[..j], key)
  }

  /** What finishing the claimed rows leaves of one key: their unmarked reservations are
      taken out, and the spend shown is the one read for the last row that wrote. */
  ghost predicate Subtracted(
      before: B.Store, after: B.Store, records: nat -> Record, events: seq<nat>, key: string, spend: nat -> int) {
    && B.Conserved(after)
    && after.reservations == before.reservations - (IdsOf(records, events, key) - before.markers)
    && after.markers == before.markers + IdsOf(records, events, key)
    && Shows(before, after.actual, records, events, key, spend)
  }

  ghost predicate Shows(
      before: B.Store, actual: Option<int>, records: nat -> Record, events: seq<nat>, key: string, spend: nat -> int) {
    || (actual == before.actual && forall j: nat :: j < |events| ==> !Writes(before, records, events, key, j))
    || exists j: nat :: LastWrite(before, records, events, key, j) && actual == Some(spend(j))
  }

  ghost predicate LastWrite(before: B.Store, records: nat -> Record, events: seq<nat>, key: string, j: nat) {
    && Writes(before, records, events, key, j)
    && forall k: nat :: j < k < |events| ==> !Writes(before, records, events, key, k)
  }

  lemma {:induction false} WritesBefore(before: B.Store, records: nat -> Record, events: seq<nat>, key: string, j: nat)
    requires events != [] && j < |events| - 1
    ensures Writes(before, records, events, key, j) <==> Writes(before, records, events[..|events| - 1], key, j)
  {
    assert events[..|events| - 1][..j] == events[..j];
  }

  lemma {:induction false} ShowsNext(
      before: B.Store, actual: Option<int>, records: nat -> Record, events: seq<nat>, key: string, spend: nat -> int)
    requires events != [] && Shows(before, actual, records, events[..|events| - 1], key, spend)
    ensures var n := |events| - 1;
      Shows(before, if Writes(before, records, events, key, n) then Some(spend(n)) else actual, records, events, key,
            spend)
  {
    var n := |events| - 1;
    var init := events[..n];
    forall j: nat | j < n ensures Writes(before, records, events, key, j) <==> Writes(before, records, init, key, j) {
      WritesBefore(before, records, events, key, j);
    }
    if Writes(before, records, events, key, n) {
      assert LastWrite(before, records, events, key, n);
    } else if j: nat :| LastWrite(before, records, init, key, j) && actual == Some(spend(j)) {
      assert LastWrite(before, records, events, key, j);
    }
  }

  lemma {:induction false} SubtractOneMore(before: B.Store, after: B.Store, ids: set<string>, id: string, spend: int)
    requires B.Conserved(after)
    requires after.reservations == before.reservations - (ids - before.markers) && after.markers == before.markers + ids
    ensures var next := B.Reconcile(after, id, spend).0;
      && B.Conserved(next)
      && next.reservations == before.reservations - ((ids + {id}) - before.markers)
      && next.markers == before.markers + (ids + {id})
      && next.actual == if id in before.markers + ids then after.actual else Some(spend)
  {
    B.StepConserves(after, B.CallReconcile(id, spend));
  }

  /** A pass takes the claimed reservations that were not marked out of each key's
      Redis state, keeps the counter the sum of those left, and shows the durable
      spend that was read for the last of them. */
  lemma {:induction false} FinishAllSubtracts(
      redis: map<string, B.Store>, spend: nat -> int, records: nat -> Record, events: seq<nat>, key: string)
    requires B.Conserved(StoreOf(redis, key))
    ensures Subtracted(StoreOf(redis, key), StoreOf(FinishAll(redis, spend, records, events), key), records, events,
                       key, spend)
    decreases |events|
  {
    var before := StoreOf(redis, key);
    if events == [] {
      assert before.reservations - ({} - before.markers) == before.reservations;
    } else {
      var n := |events| - 1;
      var init, record := events[..n], records(events[n]);
      FinishAllSubtracts(redis, spend, records, init, key);
      var was := StoreOf(FinishAll(redis, spend, records, init), key);
      ShowsNext(before, was.actual, records, events, key, spend);
      if record.apiKey == key {
        SubtractOneMore(before, was, IdsOf(records, init, key), record.reservation, spend(n));
      }
    }
  }

  function CompleteOne(p: Pass, i: nat, id: nat, worker: string, around: Around): Pass {
    var q := Meanwhile(p, i, around);
    q.(rows := Complete(q.rows, id, worker, q.now),
       processed := p.processed + if Owns(q.rows, id, worker, q.now) then 1 else 0)
  }

  function CompleteAll(p: Pass, events: seq<nat>, worker: string, around: Around): Pass
    decreases |events|
  {
    if events == [] then p else
      var n := |events| - 1;
      CompleteOne(CompleteAll(p, events[..n], worker, around), n, events[n], worker, around)
  }

  /** A row whose handling raises is released; one that was completed before stays so. */
  function FaultOne(p: Pass, i: nat, id: nat, worker: string, fault: Fault, around: Around): Pass {
    var q := Meanwhile(p, i, around);
    var rows := if fault.AfterCompletion? then Complete(q.rows, id, worker, q.now) else q.rows;
    q.(rows := Release(rows, id, worker))
  }

  /** The rows, the Redis state and whether the pass raised. */
  datatype Sweep = Sweep(pass: Pass, redis: map<string, B.Store>, raised: bool)

  /** A row that raises is released, and the rest of the pass does not happen. */
  function SweepOne(
      s: Sweep, i: nat, id: nat, worker: string, records: nat -> Record, durable: Durable, around: Around): Sweep {
    if s.raised then s else
      var redis := if durable.fault(i).BeforeScript? then s.redis
        else FinishOne(s.redis, durable.spend(i), records(id));
      if durable.fault(i).NoFault? then Sweep(CompleteOne(s.pass, i, id, worker, around), redis, false)
      else Sweep(FaultOne(s.pass, i, id, worker, durable.fault(i), around), redis, true)
  }

  function SweepAll(
      s: Sweep, events: seq<nat>, worker: string, records: nat -> Record, durable: Durable, around: Around): Sweep
    decreases |events|
  {
    if events == [] then s else
      var n := |events| - 1;
      SweepOne(SweepAll(s, events[..n], worker, records, durable, around), n, events[n], worker, records, durable,
               around)
  }

  lemma {:induction false} RaisedStays(
      s: Sweep, events: seq<nat>, n: nat, worker: string, records: nat -> Record, durable: Durable, around: Around)
    requires n <= |events| && SweepAll(s, events[..n], worker, records, durable, around).raised
    ensures SweepAll(s, events, worker, records, durable, around)
         == SweepAll(s, events[..n], worker, records, durable, around)
    decreases |events|
  {
    if n == |events| {
      assert events[..n] == events;
    } else {
      assert events[..|events| - 1][..n] == events[..n];
      RaisedStays(s, events[..|events| - 1], n, worker, records, durable, around);
    }
  }

  class BudgetWorker {
    var rows: Rows
    var now: int
    var redis: map<string, B.Store>
    const records: nat -> Record

    constructor (rows: Rows, now: int, redis: map<string, B.Store>, records: nat -> Record)
      ensures this.rows == rows && this.now == now && this.redis == redis && this.records == records
    {
      this.rows, this.now, this.redis, this.records := rows, now, redis, records;
    }

    method ReconcilePending(worker: string, limit: nat, lease: nat, durable: Durable, around: Around)
      returns (processed: nat, raised: bool, claimed: seq<nat>)
      modifies this
      ensures LowestClaimable(old(rows), old(now), limit, claimed)
      ensures var start := Sweep(Start(old(rows), old(now), claimed, worker, old(now) + lease), old(redis), false);
              Sweep(Pass(rows, now, {}, processed,
                         SweepAll(start, claimed, worker, records, durable, around).pass.finished),
                    redis, raised)
              == SweepAll(start, claimed, worker, records, durable, around)
    {
      claimed := ClaimRows(rows, now, limit);
      ghost var start := Sweep(Start(rows, now, claimed, worker, now + lease), redis, false);
      rows := Claim(rows, Elements(claimed), worker, now + lease);
      assert Sweep(Pass(rows, now, {}, 0, {}), redis, false) == start;
      processed, raised := FinishEach(claimed, worker, durable, around);
    }

    method FinishEach(events: seq<nat>, worker: string, durable: Durable, around: Around)
      returns (processed: nat, raised: bool)
      modifies this
      ensures var end := SweepAll(Sweep(Pass(old(rows), old(now), {}, 0, {}), old(redis), false), events, worker,
                                  records, durable, around);
              Sweep(Pass(rows, now, {}, processed, end.pass.finished), redis, raised) == end
    {
      ghost var start := Sweep(Pass(rows, now, {}, 0, {}), redis, false);
      ghost var s := start;
      processed, raised := 0, false;
      for i := 0 to |events|
        invariant s == SweepAll(start, events[..i], worker, records, durable, around)
        invariant !raised && s == Sweep(Pass(rows, now, {}, processed, s.pass.finished), redis, false)
      {
        assert events[..i + 1][..i] == events[..i];
        ghost var was := s;
        s := SweepOne(s, i, events[i], worker, records, durable, around);
        var owned;
        owned, raised := FinishRow(events[i], i, worker, durable, around, was);
        if owned { processed := processed + 1; }
        if raised {
          RaisedStays(start, events, i + 1, worker, records, durable, around);
          return;
        }
      }
      assert events[..|events|] == events;
    }

    /** One claimed row: its `_RECONCILE`, then its completion if the lease still holds; or
        its release, if anything raises. */
    method FinishRow(id: nat, i: nat, worker: string, durable: Durable, around: Around, ghost s: Sweep)
      returns (owned: bool, raised: bool)
      requires !s.raised && s.pass.rows == rows && s.pass.now == now && s.redis == redis
      modifies this
      ensures var r := SweepOne(s, i, id, worker, records, durable, around);
              && rows == r.pass.rows && now == r.pass.now && redis == r.redis && raised == r.raised
              && r.pass.processed == s.pass.processed + (if owned then 1 else 0) && r.pass.seen == s.pass.seen
    {
      now := now + around.elapsed(i);
      rows := around.others(i, rows, now);
      owned, raised := false, durable.fault(i) != NoFault;
      if durable.fault(i) != BeforeScript { redis := FinishOne(redis, durable.spend(i), records(id)); }
      if durable.fault(i) == NoFault || durable.fault(i) == AfterCompletion {
        owned := Owns(rows, id, worker, now);
        rows := Complete(rows, id, worker, now);
      }
      if raised {
        owned := false;
        rows := Release(rows, id, worker);
      }
    }
  }

  /** The first row of a pass whose handling raises, or the number of rows. */
  function FirstFault(fault: nat -> Fault, n: nat): (f: nat)
    ensures f <= n && (f < n ==> fault(f) != NoFault)
    ensures forall k :: 0 <= k < f ==> fault(k).NoFault?
  {
    if n == 0 then 0 else
      var f := FirstFault(fault, n - 1);
      if f < n - 1 then f else if fault(n - 1).NoFault? then n else n - 1
  }

  /** Up to the first fault a pass is one `_RECONCILE` and one completion per row. */
  lemma {:induction false} SweepBeforeFault(
      s: Sweep, events: seq<nat>, n: nat, worker: string, records: nat -> Record, durable: Durable, around: Around)
    requires !s.raised && n <= FirstFault(durable.fault, |events|)
    ensures SweepAll(s, events[..n], worker, records, durable, around)
         == Sweep(CompleteAll(s.pass, events[..n], worker, around),
                  FinishAll(s.redis, durable.spend, records, events[..n]), false)
    decreases n
  {
    if n > 0 {
      SweepBeforeFault(s, events, n - 1, worker, records, durable, around);
      assert events[..n][..n - 1] == events[..n - 1];
    }
  }

  /** How many rows of the pass had their script run. */
  function ScriptsRun(fault: nat -> Fault, n: nat): (m: nat)
    ensures m <= n
  {
    var f := FirstFault(fault, n);
    if f < n && !fault(f).BeforeScript? then f + 1 else f
  }

  /** A pass runs the scripts of the rows before the first fault, and of the faulty one if
      it raised only afterwards; it raises exactly if there is a fault. */
  lemma {:induction false} SweepIs(
      s: Sweep, events: seq<nat>, worker: string, records: nat -> Record, durable: Durable, around: Around)
    requires !s.raised
    ensures var end := SweepAll(s, events, worker, records, durable, around);
            var f := FirstFault(durable.fault, |events|);
      && (end.raised <==> f < |events|)
      && end.redis == FinishAll(s.redis, durable.spend, records, events[..ScriptsRun(durable.fault, |events|)])
      && end.pass == RowsAfter(s.pass, events, f, worker, durable.fault, around)
  {
    var f := FirstFault(durable.fault, |events|);
    SweepBeforeFault(s, events, f, worker, records, durable, around);
    if f < |events| {
      assert events[..f + 1][..f] == events[..f];
      RaisedStays(s, events, f + 1, worker, records, durable, around);
    } else {
      assert events[..f] == events;
    }
  }

  /** This worker completed the rows in `done`, and keeps the claimed ones still to come. */
  ghost predicate RowsSoFar(first: Rows, p: Pass, todo: seq<nat>, worker: string, until: int, done: set<nat>) {
    && p.processed == |done|
    && (forall id :: id in first ==> FinishedBy(first, p, id, id in done))
    && (forall id :: id in todo ==> id in first && id !in done && !first[id].processed)
    && (p.now <= until ==> forall id :: id in todo ==> Kept(p.rows, id, worker, until))
  }

  lemma {:induction false} RowsMeanwhile(
      first: Rows, p: Pass, i: nat, todo: seq<nat>, worker: string, until: int, around: Around, done: set<nat>)
    requires Reliable(around, worker) && RowsSoFar(first, p, todo, worker, until, done)
    ensures RowsSoFar(first, Meanwhile(p, i, around), todo, worker, until, done)
    ensures p.finished <= Meanwhile(p, i, around).finished && p.now <= Meanwhile(p, i, around).now
  {
    var q := Meanwhile(p, i, around);
    assert Rely(p.rows, q.rows, worker, q.now);
    forall id | id in first ensures FinishedBy(first, q, id, id in done) {
      assert FinishedBy(first, p, id, id in done);
    }
    forall id | q.now <= until && id in todo ensures Kept(q.rows, id, worker, until) {
      assert Kept(p.rows, id, worker, until);
    }
  }

  /** Completing the next claimed row, if it is still owned. */
  lemma {:induction false} RowStep(
      first: Rows, p: Pass, i: nat, todo: seq<nat>, worker: string, until: int, around: Around, done: set<nat>)
    returns (next: set<nat>)
    requires Reliable(around, worker) && todo != [] && todo[0] !in todo[1..]
    requires RowsSoFar(first, p, todo, worker, until, done)
    ensures var r := CompleteOne(p, i, todo[0], worker, around);
            && r.now >= p.now && p.finished <= r.finished
            && RowsSoFar(first, r, todo[1..], worker, until, next)
            && done <= next <= done + {todo[0]}
            && (r.now <= until ==> todo[0] in next || todo[0] in r.finished)
  {
    var q, id := Meanwhile(p, i, around), todo[0];
    RowsMeanwhile(first, p, i, todo, worker, until, around, done);
    next := if Owns(q.rows, id, worker, q.now) then done + {id} else done;
    CompletionKeeps(first, q, todo, worker, until, done, next);
    assert id in todo && FinishedBy(first, q, id, id in done);
    assert q.now <= until ==> Kept(q.rows, id, worker, until);
  }

  lemma {:induction false} CompletionKeeps(
      first: Rows, q: Pass, todo: seq<nat>, worker: string, until: int, done: set<nat>, next: set<nat>)
    requires todo != [] && todo[0] !in todo[1..] && RowsSoFar(first, q, todo, worker, until, done)
    requires next == if Owns(q.rows, todo[0], worker, q.now) then done + {todo[0]} else done
    ensures RowsSoFar(first, q.(rows := Complete(q.rows, todo[0], worker, q.now),
                                processed := q.processed + if Owns(q.rows, todo[0], worker, q.now) then 1 else 0),
                      todo[1..], worker, until, next)
  {
    assert todo[0] in todo;
    forall id | id in todo[1..]
      ensures id in todo && id != todo[0] && (q.now <= until ==> Kept(q.rows, id, worker, until))
    {
    }
    forall id | id in first ensures FinishedBy(first, q, id, id in done) {
    }
  }

  /** Of the first `n` claimed rows this worker completed those it still owned: all but
      those that others finished, while the pass stays within its lease. */
  lemma {:induction false} PassCompletesRows(
      first: Rows, p: Pass, claimed: seq<nat>, n: nat, worker: string, until: int, around: Around)
    returns (done: set<nat>)
    requires Reliable(around, worker)
    requires n <= |claimed| && forall i, j :: 0 <= i < j < |claimed| ==> claimed[i] != claimed[j]
    requires RowsSoFar(first, p, claimed, worker, until, {})
    ensures var r := CompleteAll(p, claimed[..n], worker, around);
            && r.now >= p.now && RowsSoFar(first, r, claimed[n..], worker, until, done)
            && (r.now <= until ==> Elements(claimed[..n]) <= done + r.finished)
    ensures done <= Elements(claimed[..n])
    decreases n
  {
    if n == 0 {
      return {};
    }
    done := PassCompletesRows(first, p, claimed, n - 1, worker, until, around);
    Peel(claimed, n);
    var was := CompleteAll(p, claimed[..n - 1], worker, around);
    done := RowStep(first, was, n - 1, claimed[n - 1..], worker, until, around, done);
  }

  /** A row of the pass that raises, and the claimed rows after it, are finished by others,
      or claimable again, or still carry this worker's lease. */
  ghost predicate LeftBehind(rows: Rows, claimed: seq<nat>, f: nat, now: int, worker: string, until: int) {
    && (f < |claimed| ==> claimed[f] in rows && (rows[claimed[f]].processed || Claimable(rows[claimed[f]], now)))
    && forall k :: f < k < |claimed| ==> Kept(rows, claimed[k], worker, until)
  }

  /** The rows after a pass whose first fault, if any, is at `f`. */
  ghost function RowsAfter(
      start: Pass, claimed: seq<nat>, f: nat, worker: string, fault: nat -> Fault, around: Around): Pass
    requires f <= |claimed|
  {
    var before := CompleteAll(start, claimed[..f], worker, around);
    if f < |claimed| then FaultOne(before, f, claimed[f], worker, fault(f), around) else before
  }

  /** The row whose completion may have been committed and not counted. */
  function MayBeLost(claimed: seq<nat>, f: nat, fault: nat -> Fault): set<nat> {
    if f < |claimed| && fault(f).AfterCompletion? then {claimed[f]} else {}
  }

  /** This worker completed the rows in `done`, among those before the first fault, and
      counted them; it completed those in `lost` and did not.  In time it completed all
      before the fault that others did not finish. */
  ghost predicate RowsResult(
      first: Rows, r: Pass, claimed: seq<nat>, f: nat, worker: string, until: int, fault: nat -> Fault,
      done: set<nat>, lost: set<nat>)
    requires f <= |claimed|
  {
    && r.processed == |done| && done <= Elements(claimed[..f]) && lost <= MayBeLost(claimed, f, fault)
    && (forall id :: id in first ==> FinishedBy(first, r, id, id in done || id in lost))
    && (r.now <= until ==>
          Elements(claimed[..f]) <= done + r.finished && LeftBehind(r.rows, claimed, f, r.now, worker, until))
  }

  lemma {:induction false} BudgetRows(
      first: Rows, start: Pass, claimed: seq<nat>, f: nat, worker: string, until: int, fault: nat -> Fault,
      around: Around)
    returns (done: set<nat>, lost: set<nat>)
    requires Reliable(around, worker) && f <= |claimed|
    requires forall i, j :: 0 <= i < j < |claimed| ==> claimed[i] != claimed[j]
    requires RowsSoFar(first, start, claimed, worker, until, {})
    ensures RowsResult(first, RowsAfter(start, claimed, f, worker, fault, around), claimed, f, worker, until, fault,
                       done, lost)
  {
    lost := {};
    done := PassCompletesRows(first, start, claimed, f, worker, until, around);
    if f < |claimed| {
      var before := CompleteAll(start, claimed[..f], worker, around);
      lost := FaultLeaves(first, before, claimed, f, worker, until, fault(f), around, done);
    }
  }

  /** What a pass that starts from `start` comes to: rows, Redis and exception. */
  ghost predicate SweepResult(
      first: Rows, start: Sweep, claimed: seq<nat>, worker: string, until: int,
      records: nat -> Record, durable: Durable, around: Around, done: set<nat>, lost: set<nat>)
  {
    var end := SweepAll(start, claimed, worker, records, durable, around);
    var f := FirstFault(durable.fault, |claimed|);
    && (end.raised <==> f < |claimed|)
    && end.redis == FinishAll(start.redis, durable.spend, records, claimed[..ScriptsRun(durable.fault, |claimed|)])
    && RowsResult(first, end.pass, claimed, f, worker, until, durable.fault, done, lost)
  }

  lemma {:induction false} SweepResults(
      first: Rows, start: Sweep, claimed: seq<nat>, worker: string, until: int,
      records: nat -> Record, durable: Durable, around: Around)
    returns (done: set<nat>, lost: set<nat>)
    requires Reliable(around, worker) && !start.raised
    requires forall i, j :: 0 <= i < j < |claimed| ==> claimed[i] != claimed[j]
    requires RowsSoFar(first, start.pass, claimed, worker, until, {})
    ensures SweepResult(first, start, claimed, worker, until, records, durable, around, done, lost)
  {
    var f := FirstFault(durable.fault, |claimed|);
    done, lost := BudgetRows(first, start.pass, claimed, f, worker, until, durable.fault, around);
    SweepIs(start, claimed, worker, records, durable, around);
  }

  /** The guarantee of `reconcile_pending` from its claim to its count or its exception,
      beside any other workers and requests. */
  lemma {:induction false} BudgetPass(
      first: Rows, now: int, limit: nat, claimed: seq<nat>, worker: string, until: int, start: Sweep,
      records: nat -> Record, durable: Durable, around: Around)
    returns (done: set<nat>, lost: set<nat>)
    requires LowestClaimable(first, now, limit, claimed) && Reliable(around, worker)
    requires start.pass == Start(first, now, claimed, worker, until) && !start.raised
    ensures SweepResult(first, start, claimed, worker, until, records, durable, around, done, lost)
  {
    ClaimedRows(first, now, limit, claimed, worker, until);
    done, lost := SweepResults(first, start, claimed, worker, until, records, durable, around);
  }

  lemma {:induction false} ClaimedRows(first: Rows, now: int, limit: nat, claimed: seq<nat>, worker: string, until: int)
    requires LowestClaimable(first, now, limit, claimed)
    ensures RowsSoFar(first, Start(first, now, claimed, worker, until), claimed, worker, until, {})
    ensures forall i, j :: 0 <= i < j < |claimed| ==> claimed[i] != claimed[j]
  {
    assert forall id :: id in claimed ==> id in ClaimableIds(first, now);
  }

  lemma {:induction false} FaultLeaves(
      first: Rows, p: Pass, claimed: seq<nat>, f: nat, worker: string, until: int, fault: Fault, around: Around,
      done: set<nat>)
    returns (lost: set<nat>)
    requires Reliable(around, worker) && f < |claimed|
    requires forall i, j :: 0 <= i < j < |claimed| ==> claimed[i] != claimed[j]
    requires RowsSoFar(first, p, claimed[f..], worker, until, done)
    ensures var r := FaultOne(p, f, claimed[f], worker, fault, around);
      && r.processed == |done| && p.now <= r.now && p.finished <= r.finished
      && lost <= (if fault.AfterCompletion? then {claimed[f]} else {})
      && (forall id :: id in first ==> FinishedBy(first, r, id, id in done || id in lost))
      && (r.now <= until ==> LeftBehind(r.rows, claimed, f, r.now, worker, until))
  {
    var q, r, id := Meanwhile(p, f, around), FaultOne(p, f, claimed[f], worker, fault, around), claimed[f];
    RowsMeanwhile(first, p, f, claimed[f..], worker, until, around, done);
    lost := if fault.AfterCompletion? && Owns(q.rows, id, worker, q.now) then {id} else {};
    forall k | k in first ensures FinishedBy(first, r, k, k in done || k in lost) {
      assert FinishedBy(first, q, k, k in done);
    }
    if r.now <= until {
      forall k | f <= k < |claimed| ensures Kept(q.rows, claimed[k], worker, until) {
        assert claimed[f..][k - f] == claimed[k];
        assert claimed[k] in claimed[f..];
      }
    }
  }

  lemma {:induction false} Peel(s: seq<nat>, n: nat)
    requires 0 < n <= |s| && forall i, j :: 0 <= i < j < |s| ==> s[i] != s[j]
    ensures s[..n][..n - 1] == s[..n - 1] && s[..n][n - 1] == s[n - 1] && |s[..n]| == n
    ensures s[n - 1..] == [s[n - 1]] + s[n..] && s[n - 1] !in s[n..] && s[n - 1..][1..] == s[n..]
    ensures Elements(s[..n]) == Elements(s[..n - 1]) + {s[n - 1]}
  {
    assert s[..n] == s[..n - 1] + [s[n - 1]];
  }
}
