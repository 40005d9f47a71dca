/** The leased outbox tables: `configuration_outbox` (mixapi/repositories/configuration.py)
    and `budget_reconciliation_outbox` (mixapi/repositories/budgets.py).  Each
    operation is one transaction that reads the database clock once. */
module OutboxLease {
  import opened Prelude

  /** `topic` is the configuration version, or the reservation id. */
  datatype Row = Row(topic: string, claimedBy: Option<string>, expires: Option<int>, processed: bool)

  type Rows = map<nat, Row>

  predicate Claimable(row: Row, now: int) {
    !row.processed && (row.expires.None? || row.expires.value < now)
  }

  /** The guard shared by renew, complete and `_owns_outbox_claim`. */
  predicate Owns(rows: Rows, id: nat, worker: string, now: int) {
    && id in rows
    && rows[id].claimedBy == Some(worker) && !rows[id].processed
    && rows[id].expires.Some? && rows[id].expires.value >= now
  }

  function Claim(rows: Rows, ids: set<nat>, worker: string, until: int): Rows {
    map id | id in rows ::
      if id in ids then rows[id].(claimedBy := Some(worker), expires := Some(until)) else rows[id]
  }

  function Renew(rows: Rows, id: nat, worker: string, now: int, until: int): Rows {
    if Owns(rows, id, worker, now) then rows[id := rows[id].(expires := Some(until))] else rows
  }

  function Complete(rows: Rows, id: nat, worker: string, now: int): Rows {
    if Owns(rows, id, worker, now) then rows[id := rows[id].(processed := true, expires := None)] else rows
  }

  /** Release checks the claimant and not the expiry. */
  predicate Releases(rows: Rows, id: nat, worker: string) {
    id in rows && rows[id].claimedBy == Some(worker) && !rows[id].processed
  }

  function Release(rows: Rows, id: nat, worker: string): Rows {
    if Releases(rows, id, worker) then rows[id := rows[id].(claimedBy := None, expires := None)] else rows
  }

  /** Marking a configuration version, published or failed, closes all its events. */
  function CloseTopic(rows: Rows, topic: string): Rows {
    map id | id in rows ::
      if rows[id].topic == topic then rows[id].(processed := true, claimedBy := None, expires := None) else rows[id]
  }

  /** `mark_reconciliation_processed`: a request finishes the row of its own settlement
      without a claim. */
  function ProcessTopic(rows: Rows, topic: string): Rows {
    map id | id in rows ::
      if rows[id].topic == topic && !rows[id].processed then rows[id].(processed := true, expires := None) else rows[id]
  }

  // ------------------------------------------------------ workers, crashes, time

  /** A lease a worker believes it holds, until a given time. */
  datatype Lease = Lease(worker: string, id: nat)

  datatype State = State(rows: Rows, now: int, held: map<Lease, int>)

  datatype Step =
    | Insert(id: nat, topic: string)
    | Tick(elapsed: nat)
    | Crash(worker: string)
    | DoClaim(worker: string, ids: set<nat>, lease: nat)
    | DoRenew(worker: string, id: nat, lease: nat)
    | DoComplete(worker: string, id: nat)
    | DoMark(worker: string, id: nat)
    | DoClose(topic: string)
    | DoProcess(topic: string)
    | DoRelease(worker: string, id: nat)

  /** `SKIP LOCKED` may pass over any claimable row; a claim never takes another. */
  ghost predicate Enabled(s: State, t: Step) {
    match t
    case Insert(id, _) => id !in s.rows
    case DoClaim(worker, ids, _) => forall id :: id in ids ==> id in s.rows && Claimable(s.rows[id], s.now)
    case DoRenew(worker, id, _) => Lease(worker, id) in s.held
    case DoComplete(worker, id) => Lease(worker, id) in s.held
    case DoMark(worker, id) => Lease(worker, id) in s.held
    case DoRelease(worker, id) => Lease(worker, id) in s.held
    case _ => true
  }

  function Drop(held: map<Lease, int>, worker: string, id: nat): map<Lease, int> {
    held - {Lease(worker, id)}
  }

  function LeaseKeys(worker: string, ids: set<nat>): (r: set<Lease>)
    ensures forall c :: c in r <==> c.worker == worker && c.id in ids
  {
    set id | id in ids :: Lease(worker, id)
  }

  function Leases(worker: string, ids: set<nat>, until: int): map<Lease, int> {
    map c | c in LeaseKeys(worker, ids) :: until
  }

  ghost function Next(s: State, t: Step): State {
    match t
    case Insert(id, topic) => s.(rows := s.rows[id := Row(topic, None, None, false)])
    case Tick(elapsed) => s.(now := s.now + elapsed)
    case Crash(worker) => s.(held := map c | c in s.held && c.worker != worker :: s.held[c])
    case DoClaim(worker, ids, lease) =>
      s.(rows := Claim(s.rows, ids, worker, s.now + lease),
         held := s.held + Leases(worker, ids, s.now + lease))
    case DoRenew(worker, id, lease) =>
      if Owns(s.rows, id, worker, s.now) then
        s.(rows := Renew(s.rows, id, worker, s.now, s.now + lease), held := s.held[Lease(worker, id) := s.now + lease])
      else s
    case DoComplete(worker, id) => s.(rows := Complete(s.rows, id, worker, s.now), held := Drop(s.held, worker, id))
    case DoMark(worker, id) =>
      s.(rows := if Owns(s.rows, id, worker, s.now) then CloseTopic(s.rows, s.rows[id].topic) else s.rows,
         held := Drop(s.held, worker, id))
    case DoClose(topic) => s.(rows := CloseTopic(s.rows, topic))
    case DoProcess(topic) => s.(rows := ProcessTopic(s.rows, topic))
    case DoRelease(worker, id) => s.(rows := Release(s.rows, id, worker), held := Drop(s.held, worker, id))
  }

  ghost predicate ValidRun(s: State, steps: seq<Step>)
    decreases |steps|
  {
    steps == [] || (Enabled(s, steps[0]) && ValidRun(Next(s, steps[0]), steps[1..]))
  }

  ghost function Run(s: State, steps: seq<Step>): State
    decreases |steps|
  {
    if steps == [] then s else Run(Next(s, steps[0]), steps[1..])
  }

  ghost predicate Backed(s: State, c: Lease) {
    c in s.held && s.held[c] >= s.now ==>
      && c.id in s.rows
      && (s.rows[c.id].processed ||
          (s.rows[c.id].claimedBy == Some(c.worker) && s.rows[c.id].expires == Some(s.held[c])))
  }

  /** A row that still names a worker shows the lease that worker remembers, lapsed or not. */
  ghost predicate Remembered(s: State, c: Lease) {
    c in s.held ==>
      && c.id in s.rows
      && (!s.rows[c.id].processed && s.rows[c.id].claimedBy == Some(c.worker) ==>
            s.rows[c.id].expires == Some(s.held[c]))
  }

  /** A lease that has not lapsed is the one written in its unprocessed row. */
  ghost predicate Inv(s: State) {
    && (forall c :: c in s.held ==> Backed(s, c))
    && (forall c :: c in s.held ==> Remembered(s, c))
    && (forall id :: id in s.rows && s.rows[id].processed ==> s.rows[id].expires.None?)
  }

  lemma {:induction false} BackedAfterClaim(s: State, t: Step, c: Lease)
    requires Inv(s) && Enabled(s, t) && t.DoClaim?
    ensures Backed(Next(s, t), c)
  {
    if c !in Leases(t.worker, t.ids, s.now + t.lease) && c in s.held { assert Backed(s, c); }
  }

  lemma {:induction false} BackedAfterClosing(s: State, t: Step, c: Lease)
    requires Inv(s) && Enabled(s, t) && (t.DoMark? || t.DoClose? || t.DoProcess?)
    ensures Backed(Next(s, t), c)
  {
    if c in s.held { assert Backed(s, c); }
  }

  lemma {:induction false} BackedAfterRow(s: State, t: Step, c: Lease)
    requires Inv(s) && Enabled(s, t) && (t.DoRenew? || t.DoComplete? || t.DoRelease? || t.Insert?)
    ensures Backed(Next(s, t), c)
  {
    if c in s.held { assert Backed(s, c); }
  }

  lemma {:induction false} BackedAfter(s: State, t: Step, c: Lease)
    requires Inv(s) && Enabled(s, t)
    ensures Backed(Next(s, t), c)
  {
    if t.DoClaim? {
      BackedAfterClaim(s, t, c);
    } else if t.DoMark? || t.DoClose? || t.DoProcess? {
      BackedAfterClosing(s, t, c);
    } else if t.Tick? || t.Crash? {
      if c in s.held { assert Backed(s, c); }
    } else {
      BackedAfterRow(s, t, c);
    }
  }

  lemma {:induction false} RememberedAfterClaim(s: State, t: Step, c: Lease)
    requires Inv(s) && Enabled(s, t) && t.DoClaim?
    ensures Remembered(Next(s, t), c)
  {
    if c !in Leases(t.worker, t.ids, s.now + t.lease) && c in s.held { assert Remembered(s, c); }
  }

  lemma {:induction false} RememberedAfter(s: State, t: Step, c: Lease)
    requires Inv(s) && Enabled(s, t)
    ensures Remembered(Next(s, t), c)
  {
    if t.DoClaim? {
      RememberedAfterClaim(s, t, c);
    } else if c in s.held {
      assert Remembered(s, c);
    }
  }

  lemma {:induction false} ProcessedAfter(s: State, t: Step, id: nat)
    requires Inv(s) && Enabled(s, t) && id in Next(s, t).rows && Next(s, t).rows[id].processed
    ensures Next(s, t).rows[id].expires.None?
  {
    if t.DoMark? && Owns(s.rows, t.id, t.worker, s.now) {
      assert Next(s, t).rows == CloseTopic(s.rows, s.rows[t.id].topic);
    }
  }

  lemma {:induction false} InvStep(s: State, t: Step)
    requires Inv(s) && Enabled(s, t)
    ensures Inv(Next(s, t))
  {
    var s' := Next(s, t);
    forall c | c in s'.held ensures Backed(s', c) && Remembered(s', c) {
      BackedAfter(s, t, c);
      RememberedAfter(s, t, c);
    }
    forall id | id in s'.rows && s'.rows[id].processed ensures s'.rows[id].expires.None? { ProcessedAfter(s, t, id); }
  }

  lemma {:induction false} InvRun(s: State, steps: seq<Step>)
    requires Inv(s) && ValidRun(s, steps)
    ensures Inv(Run(s, steps))
    decreases |steps|
  {
    if steps != [] {
      InvStep(s, steps[0]);
      InvRun(Next(s, steps[0]), steps[1..]);
    }
  }

  /** Lease exclusivity: in every state that any schedule of workers, crashes and clock
      ticks reaches, an unprocessed row has at most one worker with an unlapsed lease,
      and no such row can be claimed. */
  lemma {:induction false} LeaseExclusivity(s: State, steps: seq<Step>, id: nat, one: string, two: string)
    requires Inv(s) && ValidRun(s, steps)
    requires var end := Run(s, steps);
             && id in end.rows && !end.rows[id].processed
             && Lease(one, id) in end.held && end.held[Lease(one, id)] >= end.now
    ensures var end := Run(s, steps);
            && (Lease(two, id) in end.held && end.held[Lease(two, id)] >= end.now ==> one == two)
            && !Claimable(end.rows[id], end.now)
  {
    InvRun(s, steps);
  }

  /** In every state that any schedule reaches, a worker whose own lease lapsed can
      neither renew it nor complete or mark the row, whether or not anyone else has
      claimed the row since. */
  lemma {:induction false} LapsedWorkerCannotFinish(s: State, steps: seq<Step>, lapsed: string, id: nat, lease: nat)
    requires Inv(s) && ValidRun(s, steps)
    requires var end := Run(s, steps); Lease(lapsed, id) in end.held && end.held[Lease(lapsed, id)] < end.now
    ensures var end := Run(s, steps);
            && !Owns(end.rows, id, lapsed, end.now)
            && Complete(end.rows, id, lapsed, end.now) == end.rows
            && Next(end, DoMark(lapsed, id)).rows == end.rows
            && Next(end, DoRenew(lapsed, id, lease)) == end
  {
    InvRun(s, steps);
    assert Remembered(Run(s, steps), Lease(lapsed, id));
  }

  /** What a release may change: the claimant of one row that names the releasing worker. */
  ghost predicate OnlyReopens(rows: Rows, rows': Rows, id: nat, worker: string) {
    || rows' == rows
    || (&& id in rows && !rows[id].processed && rows[id].claimedBy == Some(worker)
        && rows' == rows[id := rows[id].(claimedBy := None, expires := None)])
  }

  /** The release of a lapsed lease, which the code does not refuse, changes at most the
      row that still names its worker, and makes no row claimable that was not so already. */
  lemma {:induction false} LapsedReleaseOnlyReopens(s: State, steps: seq<Step>, lapsed: string, id: nat, other: nat)
    requires Inv(s) && ValidRun(s, steps)
    requires var end := Run(s, steps); Lease(lapsed, id) in end.held && end.held[Lease(lapsed, id)] < end.now
    requires other in Run(s, steps).rows
    ensures var end := Run(s, steps);
            var rows := Next(end, DoRelease(lapsed, id)).rows;
            && OnlyReopens(end.rows, rows, id, lapsed)
            && other in rows && (Claimable(rows[other], end.now) <==> Claimable(end.rows[other], end.now))
  {
    InvRun(s, steps);
    assert Remembered(Run(s, steps), Lease(lapsed, id));
  }

  /** While a lease lasts, nothing that any other worker does through its own leases
      touches the row: not a renewal, a completion, a mark of this row or a release. */
  lemma {:induction false} HolderExcludesOthers(s: State, steps: seq<Step>, id: nat, other: string, holder: string)
    requires Inv(s) && ValidRun(s, steps)
    requires var end := Run(s, steps);
             other != holder && Lease(holder, id) in end.held && end.held[Lease(holder, id)] >= end.now
    ensures var end := Run(s, steps);
            && !Owns(end.rows, id, other, end.now)
            && Complete(end.rows, id, other, end.now) == end.rows
            && Next(end, DoMark(other, id)).rows == end.rows
            && Next(end, DoRelease(other, id)).rows == end.rows
  {
    InvRun(s, steps);
  }

  /** A live lease on an unprocessed row is enough to finish it. */
  lemma {:induction false} HolderFinishes(s: State, steps: seq<Step>, id: nat, holder: string)
    requires Inv(s) && ValidRun(s, steps)
    requires var end := Run(s, steps); Lease(holder, id) in end.held && end.held[Lease(holder, id)] >= end.now
    ensures var end := Run(s, steps);
            && id in end.rows
            && Complete(end.rows, id, holder, end.now)[id].processed
            && Next(end, DoMark(holder, id)).rows[id].processed
  {
    InvRun(s, steps);
  }

  ghost predicate Finishes(s: State, t: Step, id: nat) {
    id in s.rows && !s.rows[id].processed && id in Next(s, t).rows && Next(s, t).rows[id].processed
  }

  lemma {:induction false} ProcessedStays(s: State, steps: seq<Step>, id: nat)
    requires ValidRun(s, steps) && id in s.rows && s.rows[id].processed
    ensures id in Run(s, steps).rows && Run(s, steps).rows[id].processed
    decreases |steps|
  {
    if steps != [] {
      ProcessedStays(Next(s, steps[0]), steps[1..], id);
    }
  }

  /** An event is finished at most once, and never claimed afterwards. */
  lemma {:induction false} FinishedOnce(s: State, steps: seq<Step>, id: nat, later: Step)
    requires steps != [] && ValidRun(s, steps) && Finishes(s, steps[0], id)
    requires Enabled(Run(s, steps), later)
    ensures !Finishes(Run(s, steps), later, id)
    ensures later.DoClaim? ==> id !in later.ids
  {
    ProcessedStays(Next(s, steps[0]), steps[1..], id);
  }

  // ------------------------------------------------------------------------- progress

  /** A request that settles finishes the unprocessed rows of its topic, and nothing else. */
  lemma {:induction false} ProcessFinishesTopic(rows: Rows, topic: string, id: nat)
    requires id in rows
    ensures var after := ProcessTopic(rows, topic);
      && after.Keys == rows.Keys
      && (rows[id].topic == topic ==> after[id].processed)
      && (rows[id].topic != topic || rows[id].processed ==> after[id] == rows[id])
      && after[id].topic == rows[id].topic
  {
  }

  lemma {:induction false} RunFirst(s: State, t: Step, rest: seq<Step>)
    requires Enabled(s, t) && ValidRun(Next(s, t), rest)
    ensures ValidRun(s, [t] + rest) && Run(s, [t] + rest) == Run(Next(s, t), rest)
  {
    assert ([t] + rest)[1..] == rest;
  }

  /** Nothing is stuck: once the lease written in an unprocessed row has lapsed, or if there
      is none, any worker can claim the row and finish it, whatever crashed before. */
  lemma {:induction false} RowCanBeFinished(s: State, id: nat, worker: string, elapsed: nat, lease: nat)
    requires id in s.rows && !s.rows[id].processed
    requires s.rows[id].expires.None? || s.rows[id].expires.value < s.now + elapsed
    ensures var steps := [Tick(elapsed)] + ([DoClaim(worker, {id}, lease)] + ([DoComplete(worker, id)] + []));
      && ValidRun(s, steps)
      && var end := Run(s, steps);
         && id in end.rows && end.rows[id].processed && end.rows - {id} == s.rows - {id}
         && end.now == s.now + elapsed
  {
    var later := Next(s, Tick(elapsed));
    var claimed := Next(later, DoClaim(worker, {id}, lease));
    assert Lease(worker, id) in LeaseKeys(worker, {id});
    assert Owns(claimed.rows, id, worker, claimed.now);
    RunFirst(claimed, DoComplete(worker, id), []);
    RunFirst(later, DoClaim(worker, {id}, lease), [DoComplete(worker, id)] + []);
    RunFirst(s, Tick(elapsed), [DoClaim(worker, {id}, lease)] + ([DoComplete(worker, id)] + []));
  }

  // --------------------------------------------- what one worker may rely on

  /** The row carries a lease of this worker that lasts at `now`. */
  predicate Leased(row: Row, worker: string, now: int) {
    !row.processed && row.claimedBy == Some(worker) && row.expires.Some? && row.expires.value >= now
  }

  /** What others may do to the rows by the time `now`: they may finish rows, and change
      those that this worker has no lasting lease on. */
  ghost predicate Rely(rows: Rows, rows': Rows, worker: string, now: int) {
    forall id :: id in rows ==>
      && id in rows' && rows'[id].topic == rows[id].topic && (rows[id].processed ==> rows'[id].processed)
      && (Leased(rows[id], worker, now) ==> rows'[id] == rows[id] || rows'[id].processed)
  }

  predicate ByAnother(t: Step, worker: string) {
    match t
    case DoClaim(w, _, _) => w != worker
    case DoRenew(w, _, _) => w != worker
    case DoComplete(w, _) => w != worker
    case DoMark(w, _) => w != worker
    case DoRelease(w, _) => w != worker
    case _ => true
  }

  lemma {:induction false} StepRelies(s: State, t: Step, worker: string, now: int)
    requires Enabled(s, t) && ByAnother(t, worker) && s.now <= now
    ensures Rely(s.rows, Next(s, t).rows, worker, now)
  {
    var s' := Next(s, t);
    forall id | id in s.rows
      ensures id in s'.rows && s'.rows[id].topic == s.rows[id].topic && (s.rows[id].processed ==> s'.rows[id].processed)
      ensures Leased(s.rows[id], worker, now) ==> s'.rows[id] == s.rows[id] || s'.rows[id].processed
    {
      if t.DoClaim? && id in t.ids { assert Claimable(s.rows[id], s.now); }
    }
  }

  lemma {:induction false} RelyTrans(a: Rows, b: Rows, c: Rows, worker: string, now: int)
    requires Rely(a, b, worker, now) && Rely(b, c, worker, now)
    ensures Rely(a, c, worker, now)
  {
  }

  /** Whatever other workers, publishers and requests do while time passes, this worker
      may rely on its lasting leases. */
  lemma {:induction false} OthersRely(s: State, steps: seq<Step>, worker: string)
    requires ValidRun(s, steps) && forall i :: 0 <= i < |steps| ==> ByAnother(steps[i], worker)
    ensures s.now <= Run(s, steps).now && Rely(s.rows, Run(s, steps).rows, worker, Run(s, steps).now)
    decreases |steps|
  {
    if steps != [] {
      var end := Run(s, steps);
      OthersRely(Next(s, steps[0]), steps[1..], worker);
      StepRelies(s, steps[0], worker, end.now);
      RelyTrans(s.rows, Next(s, steps[0]).rows, end.rows, worker, end.now);
    }
  }
}
