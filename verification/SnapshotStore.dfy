/** Publication of configuration snapshots to Redis: mixapi/runtime/snapshots.py driven
    by mixapi/publication.py.  Any number of publishers and rebuilds interleave; each
    Redis command or script is one step, and a publisher may stop at any point. */
module SnapshotStore {
  import opened Prelude

  /** A stored payload, with the checksum it carries. */
  datatype Snapshot = Snapshot(version: nat, checksum: string, content: string)

  /** A Redis key with a value and, perhaps, a TTL. */
  datatype Entry<+T> = Entry(value: T, ttl: bool)

  datatype Store = Store(payloads: map<nat, Entry<Snapshot>>, manifests: map<nat, Entry<string>>, active: Option<nat>)

  const EMPTY := Store(map[], map[], None)

  datatype WriteResult = Created | Same | Conflict

  function WritePending(s: Store, snapshot: Snapshot): (r: (Store, WriteResult)) {
    if snapshot.version !in s.payloads then
      (s.(payloads := s.payloads[snapshot.version := Entry(snapshot, false)]), Created)
    else
      (s, if s.payloads[snapshot.version].value == snapshot then Same else Conflict)
  }

  /** `_MARK_READY`; `loaded` is the payload text read before. */
  function MarkReady(s: Store, loaded: Snapshot, checksum: string): (r: (Store, int)) {
    var v := loaded.version;
    if v !in s.payloads then (s, -1)
    else if s.payloads[v].value != loaded then (s, -2)
    else if v in s.manifests && s.manifests[v].value != checksum then (s, -3)
    else if v in s.manifests then (s, 0)
    else (s.(manifests := s.manifests[v := Entry(checksum, false)]), 1)
  }

  /** `_ACTIVATE`.  The pointer only ever holds the decimal text of a version, so the
      script's answer -4 cannot arise. */
  function Activate(s: Store, version: nat, checksum: string): (r: (Store, int)) {
    if version !in s.payloads then (s, -1)
    else if version !in s.manifests then (s, -2)
    else if s.manifests[version].value != checksum then (s, -3)
    else if s.active.Some? && s.active.value > version then (s, 0)
    else (s.(active := Some(version)), 1)
  }

  // ------------------------------------------------------- publishers and steps

  /** Where a publisher stands.  A rebuild of an existing snapshot does not retain. */
  datatype Phase =
    | Writing(snapshot: Snapshot)
    | Loading(snapshot: Snapshot, retains: bool)
    | Marking(loaded: Snapshot, snapshot: Snapshot, retains: bool)
    | Activating(snapshot: Snapshot, retains: bool)
    | Retaining(version: nat)

  datatype State = State(store: Store, publishers: map<string, Phase>)

  datatype Sweep = PersistPayload | PersistManifest | ExpirePayload | ExpireManifest | Delete

  datatype Step =
    | Publish(p: string, snapshot: Snapshot)
    | Rebuild(p: string, version: nat)
    | DoWrite(p: string)
    | DoLoad(p: string)
    | DoMark(p: string)
    | DoActivate(p: string)
    | DoSweep(p: string, version: nat, sweep: Sweep)
    | Stop(p: string)
    | PayloadExpires(version: nat)
    | ManifestExpires(version: nat)

  function SetPayloadTtl(s: Store, v: nat, ttl: bool): Store {
    if v in s.payloads then s.(payloads := s.payloads[v := s.payloads[v].(ttl := ttl)]) else s
  }

  function SetManifestTtl(s: Store, v: nat, ttl: bool): Store {
    if v in s.manifests then s.(manifests := s.manifests[v := s.manifests[v].(ttl := ttl)]) else s
  }

  function Swept(s: Store, v: nat, sweep: Sweep): Store {
    match sweep
    case PersistPayload => SetPayloadTtl(s, v, false)
    case PersistManifest => SetManifestTtl(s, v, false)
    case ExpirePayload => SetPayloadTtl(s, v, true)
    case ExpireManifest => SetManifestTtl(s, v, true)
    case Delete => s.(payloads := s.payloads - {v}, manifests := s.manifests - {v})
  }

  /** A sweep persists the version the publisher published and expires or deletes
      versions below it; which of them, and in what order, depends on what its scan of
      the keys happened to see. */
  predicate SweepAllowed(published: nat, v: nat, sweep: Sweep) {
    if sweep.PersistPayload? || sweep.PersistManifest? then v == published else v < published
  }

  predicate At(s: State, p: string) { p in s.publishers }

  predicate Enabled(s: State, t: Step) {
    match t
    case Publish(p, snapshot) => !At(s, p)
    case Rebuild(p, version) => !At(s, p) && version in s.store.payloads
    case DoWrite(p) => At(s, p) && s.publishers[p].Writing?
    case DoLoad(p) => At(s, p) && s.publishers[p].Loading?
    case DoMark(p) => At(s, p) && s.publishers[p].Marking?
    case DoActivate(p) => At(s, p) && s.publishers[p].Activating?
    case DoSweep(p, v, sweep) =>
      At(s, p) && s.publishers[p].Retaining? && SweepAllowed(s.publishers[p].version, v, sweep)
    case Stop(p) => At(s, p)
    case PayloadExpires(v) => v in s.store.payloads && s.store.payloads[v].ttl
    case ManifestExpires(v) => v in s.store.manifests && s.store.manifests[v].ttl
  }

  function Advance(s: State, store: Store, p: string, ok: bool, next: Phase): State {
    State(store, if ok then s.publishers[p := next] else s.publishers - {p})
  }

  /** A publisher that meets an error stops. */
  function Next(s: State, t: Step): State
    requires Enabled(s, t)
  {
    match t
    case Publish(p, snapshot) => s.(publishers := s.publishers[p := Writing(snapshot)])
    case Rebuild(p, version) => s.(publishers := s.publishers[p := Loading(s.store.payloads[version].value, false)])
    case DoWrite(p) =>
      var snapshot := s.publishers[p].snapshot;
      var (store, result) := WritePending(s.store, snapshot);
      Advance(s, store, p, result != Conflict, Loading(snapshot, true))
    case DoLoad(p) =>
      var Loading(snapshot, retains) := s.publishers[p];
      var found := snapshot.version in s.store.payloads
        && s.store.payloads[snapshot.version].value.version == snapshot.version
        && s.store.payloads[snapshot.version].value.checksum == snapshot.checksum;
      Advance(s, s.store, p, found,
              if found then Marking(s.store.payloads[snapshot.version].value, snapshot, retains) else s.publishers[p])
    case DoMark(p) =>
      var Marking(loaded, snapshot, retains) := s.publishers[p];
      var (store, result) := MarkReady(s.store, loaded, snapshot.checksum);
      Advance(s, store, p, result >= 0, Activating(snapshot, retains))
    case DoActivate(p) =>
      var Activating(snapshot, retains) := s.publishers[p];
      var (store, result) := Activate(s.store, snapshot.version, snapshot.checksum);
      Advance(s, store, p, result >= 0 && retains, Retaining(snapshot.version))
    case DoSweep(p, v, sweep) => s.(store := Swept(s.store, v, sweep))
    case Stop(p) => s.(publishers := s.publishers - {p})
    case PayloadExpires(v) => s.(store := s.store.(payloads := s.store.payloads - {v}))
    case ManifestExpires(v) => s.(store := s.store.(manifests := s.store.manifests - {v}))
  }

  predicate ValidRun(s: State, steps: seq<Step>)
    decreases |steps|
  {
    steps == [] || (Enabled(s, steps[0]) && ValidRun(Next(s, steps[0]), steps[1..]))
  }

  function Run(s: State, steps: seq<Step>): State
    requires ValidRun(s, steps)
    decreases |steps|
  {
    if steps == [] then s else Run(Next(s, steps[0]), steps[1..])
  }

  // ------------------------------------------------------------------ invariant

  /** At or above the active pointer: versions a pointer may still come to hold. */
  predicate Current(s: Store, v: nat) { s.active.None? || s.active.value <= v }

  /** Current versions never carry a TTL, and a current manifest matches its payload. */
  ghost predicate Sound(s: Store) {
    && (forall v :: v in s.payloads ==> s.payloads[v].value.version == v && (Current(s, v) ==> !s.payloads[v].ttl))
    && (forall v :: v in s.manifests && Current(s, v) ==>
          && !s.manifests[v].ttl
          && v in s.payloads && s.payloads[v].value.checksum == s.manifests[v].value)
    && (s.active.Some? ==> s.active.value in s.manifests)
  }

  ghost predicate PhaseOk(s: Store, phase: Phase) {
    match phase
    case Marking(loaded, snapshot, _) => loaded.version == snapshot.version && loaded.checksum == snapshot.checksum
    case Activating(snapshot, _) =>
      Current(s, snapshot.version) ==>
        snapshot.version in s.manifests && s.manifests[snapshot.version].value == snapshot.checksum
    case Retaining(version) => s.active.Some? && version <= s.active.value
    case _ => true
  }

  ghost predicate Inv(s: State) {
    Sound(s.store) && forall p :: p in s.publishers ==> PhaseOk(s.store, s.publishers[p])
  }

  /** What every step keeps of the store for the publishers that did not take it: the
      pointer does not fall, and current manifests stay. */
  ghost predicate Later(s: Store, s': Store) {
    && (s.active.Some? ==> s'.active.Some? && s.active.value <= s'.active.value)
    && (forall v :: v in s.manifests && Current(s', v) ==> v in s'.manifests && s'.manifests[v] == s.manifests[v])
  }

  lemma {:induction false} StoreStep(s: State, t: Step)
    requires Inv(s) && Enabled(s, t)
    ensures Sound(Next(s, t).store) && Later(s.store, Next(s, t).store)
  {
    match t
    case DoWrite(p) =>
    case DoMark(p) =>
    case DoActivate(p) => assert PhaseOk(s.store, s.publishers[p]);
    case DoSweep(p, v, sweep) => SweepStep(s.store, s.publishers[p].version, v, sweep);
    case _ =>
  }

  lemma {:induction false} SweepStep(s: Store, published: nat, v: nat, sweep: Sweep)
    requires Sound(s) && s.active.Some? && published <= s.active.value && SweepAllowed(published, v, sweep)
    ensures Sound(Swept(s, v, sweep)) && Later(s, Swept(s, v, sweep))
  {
  }

  lemma {:induction false} PhaseStep(s: State, t: Step, p: string)
    requires Inv(s) && Enabled(s, t) && Later(s.store, Next(s, t).store)
    requires p in Next(s, t).publishers
    ensures PhaseOk(Next(s, t).store, Next(s, t).publishers[p])
  {
    if p in s.publishers { assert PhaseOk(s.store, s.publishers[p]); }
  }

  lemma {:induction false} StepKeepsInv(s: State, t: Step)
    requires Inv(s) && Enabled(s, t)
    ensures Inv(Next(s, t)) && Later(s.store, Next(s, t).store)
  {
    StoreStep(s, t);
    forall p | p in Next(s, t).publishers ensures PhaseOk(Next(s, t).store, Next(s, t).publishers[p]) {
      PhaseStep(s, t, p);
    }
  }

  /** Snapshot pointer safety: under every interleaving of publishers, rebuilds,
      retention sweeps, expiries and stops, the active version never decreases, and
      whenever there is one it has a payload and a manifest without TTL whose checksum
      is the payload's. */
  lemma {:induction false} PointerSafety(s: State, steps: seq<Step>)
    requires Inv(s) && ValidRun(s, steps)
    ensures var end := Run(s, steps).store;
            && Inv(Run(s, steps))
            && (s.store.active.Some? ==> end.active.Some? && s.store.active.value <= end.active.value)
            && (end.active.Some? ==>
                  var v := end.active.value;
                  && v in end.payloads && !end.payloads[v].ttl && end.payloads[v].value.version == v
                  && v in end.manifests && !end.manifests[v].ttl
                  && end.manifests[v].value == end.payloads[v].value.checksum)
    decreases |steps|
  {
    if steps != [] {
      StepKeepsInv(s, steps[0]);
      PointerSafety(Next(s, steps[0]), steps[1..]);
    }
  }

  lemma {:induction false} EmptyIsSound()
    ensures Inv(State(EMPTY, map[]))
  {
  }

  /** No other publisher, sweep or expiry can take a version away from the publisher that
      is about to activate it: activation fails exactly when a newer version is already
      active, and then the store stays as it is. */
  lemma {:induction false} ActivationFailsOnlyWhenSuperseded(s: State, steps: seq<Step>, p: string)
    requires Inv(s) && ValidRun(s, steps)
    requires At(Run(s, steps), p) && Run(s, steps).publishers[p].Activating?
    ensures var end, snapshot := Run(s, steps).store, Run(s, steps).publishers[p].snapshot;
            var (after, result) := Activate(end, snapshot.version, snapshot.checksum);
            && (result == 1 <==> Current(end, snapshot.version))
            && (result == 1 ==> after.active == Some(snapshot.version))
            && (result < 1 ==> after == end)
  {
    PointerSafety(s, steps);
    assert PhaseOk(Run(s, steps).store, Run(s, steps).publishers[p]);
  }

  // --------------------------------------------------------------------- publication works

  /** A version is created, found with the same payload or refused by what its key held. */
  lemma {:induction false} WriteAnswers(s: Store, snapshot: Snapshot)
    ensures var (after, result) := WritePending(s, snapshot);
            var v := snapshot.version;
      && (result == Created <==> v !in s.payloads)
      && (result == Same <==> v in s.payloads && s.payloads[v].value == snapshot)
      && (result == Conflict <==> v in s.payloads && s.payloads[v].value != snapshot)
      && after.manifests == s.manifests && after.active == s.active
      && after.payloads == if result == Created then s.payloads[v := Entry(snapshot, false)] else s.payloads
  {
  }

  /** Marking writes the manifest exactly if the payload is still what was loaded and the
      version has no manifest. */
  lemma {:induction false} MarkAnswers(s: Store, loaded: Snapshot, checksum: string)
    ensures var (after, result) := MarkReady(s, loaded, checksum);
            var v := loaded.version;
            var same := v in s.payloads && s.payloads[v].value == loaded;
      && (result == 1 <==> same && v !in s.manifests)
      && (result == 0 <==> same && v in s.manifests && s.manifests[v].value == checksum)
      && (result == -1 <==> v !in s.payloads)
      && (result == -2 <==> v in s.payloads && s.payloads[v].value != loaded)
      && (result == -3 <==> same && v in s.manifests && s.manifests[v].value != checksum)
      && after.payloads == s.payloads && after.active == s.active
      && after.manifests == if result == 1 then s.manifests[v := Entry(checksum, false)] else s.manifests
  {
  }

  /** The pointer moves exactly to a version with a payload and the manifest asked for, if
      no newer one is active. */
  lemma {:induction false} ActivateAnswers(s: Store, v: nat, checksum: string)
    ensures var (after, result) := Activate(s, v, checksum);
            var ready := v in s.payloads && v in s.manifests && s.manifests[v].value == checksum;
            var newer := s.active.Some? && v < s.active.value;
      && (result == 1 <==> ready && !newer)
      && (result == 0 <==> ready && newer)
      && (result == -1 <==> v !in s.payloads)
      && (result == -2 <==> v in s.payloads && v !in s.manifests)
      && (result == -3 <==> v in s.payloads && v in s.manifests && s.manifests[v].value != checksum)
      && after.payloads == s.payloads && after.manifests == s.manifests
      && after.active == if result == 1 then Some(v) else s.active
  {
  }

  lemma {:induction false} RunFirst(s: State, t: Step, rest: seq<Step>)
    requires Enabled(s, t) && ValidRun(Next(s, t), rest)
    ensures ValidRun(s, [t] + rest) && Run(s, [t] + rest) == Run(Next(s, t), rest)
  {
    assert ([t] + rest)[1..] == rest;
  }

  /** Nothing stored under a version contradicts a snapshot of it. */
  ghost predicate Agrees(s: Store, snapshot: Snapshot) {
    var v := snapshot.version;
    && (v in s.payloads ==> s.payloads[v].value == snapshot)
    && (v in s.manifests ==> s.manifests[v].value == snapshot.checksum)
  }

  /** The snapshot is stored and marked, everything else stored is as it was, and it is
      active unless a newer version is. */
  ghost predicate IsPublished(before: Store, after: Store, snapshot: Snapshot) {
    var v := snapshot.version;
    && v in after.payloads && after.payloads[v].value == snapshot
    && v in after.manifests && after.manifests[v].value == snapshot.checksum
    && after.payloads - {v} == before.payloads - {v} && after.manifests - {v} == before.manifests - {v}
    && after.active == if before.active.Some? && v < before.active.value then before.active else Some(v)
  }

  /** From its payload on, a publisher that is not interrupted loads, marks and activates. */
  lemma {:induction false} LoadedIsPublished(s: State, p: string, snapshot: Snapshot, retains: bool)
    requires At(s, p) && s.publishers[p] == Loading(snapshot, retains)
    requires Agrees(s.store, snapshot) && snapshot.version in s.store.payloads
    ensures var steps := [DoLoad(p)] + ([DoMark(p)] + ([DoActivate(p)] + []));
      && ValidRun(s, steps)
      && IsPublished(s.store, Run(s, steps).store, snapshot)
      && Run(s, steps).publishers
           == if retains then s.publishers[p := Retaining(snapshot.version)] else s.publishers - {p}
  {
    var loaded := Next(s, DoLoad(p));
    assert loaded == State(s.store, s.publishers[p := Marking(snapshot, snapshot, retains)]);
    var marked := Next(loaded, DoMark(p));
    assert marked.publishers == s.publishers[p := Activating(snapshot, retains)];
    var activated := Next(marked, DoActivate(p));
    RunFirst(marked, DoActivate(p), []);
    RunFirst(loaded, DoMark(p), [DoActivate(p)] + []);
    RunFirst(s, DoLoad(p), [DoMark(p)] + ([DoActivate(p)] + []));
  }

  /** In every state, a publisher of a version that nothing stored contradicts, undisturbed,
      gets through to retention: the snapshot is stored, marked and active, unless a newer
      version is active. */
  lemma {:induction false} PublicationSucceeds(s: State, p: string, snapshot: Snapshot)
    requires !At(s, p) && Agrees(s.store, snapshot)
    ensures var steps := [Publish(p, snapshot)]
            + ([DoWrite(p)] + ([DoLoad(p)] + ([DoMark(p)] + ([DoActivate(p)] + []))));
      && ValidRun(s, steps)
      && IsPublished(s.store, Run(s, steps).store, snapshot)
      && Run(s, steps).publishers == s.publishers[p := Retaining(snapshot.version)]
  {
    var writing := Next(s, Publish(p, snapshot));
    var written := Next(writing, DoWrite(p));
    assert written.publishers == s.publishers[p := Loading(snapshot, true)];
    LoadedIsPublished(written, p, snapshot, true);
    var rest := [DoLoad(p)] + ([DoMark(p)] + ([DoActivate(p)] + []));
    RunFirst(writing, DoWrite(p), rest);
    RunFirst(s, Publish(p, snapshot), [DoWrite(p)] + rest);
  }

  /** A rebuild of a stored version that is current, undisturbed, makes it active again. */
  lemma {:induction false} RebuildSucceeds(s: State, p: string, v: nat)
    requires Inv(s) && !At(s, p) && v in s.store.payloads && Current(s.store, v)
    ensures var steps := [Rebuild(p, v)] + ([DoLoad(p)] + ([DoMark(p)] + ([DoActivate(p)] + [])));
      && ValidRun(s, steps)
      && IsPublished(s.store, Run(s, steps).store, s.store.payloads[v].value)
      && Run(s, steps).store.active == Some(v) && Run(s, steps).publishers == s.publishers
  {
    var loading := Next(s, Rebuild(p, v));
    LoadedIsPublished(loading, p, s.store.payloads[v].value, false);
    RunFirst(s, Rebuild(p, v), [DoLoad(p)] + ([DoMark(p)] + ([DoActivate(p)] + [])));
    assert loading.publishers - {p} == s.publishers;
  }

  // ------------------------------------------------------------- the store itself

  /** Versions in `keys` above `v` and up to `top`. */
  function Newer(keys: set<nat>, top: nat, v: nat): set<nat> { set x | x in keys && v < x <= top }

  /** The loop body of `retain_versions` for the `i`-th published version. */
  function RetainOne(s: Store, v: nat, i: nat, top: nat, count: nat): Store {
    if v == top then SetManifestTtl(SetPayloadTtl(s, v, false), v, false)
    else if i < count then SetManifestTtl(SetPayloadTtl(s, v, true), v, true)
    else Swept(s, v, Delete)
  }

  function RetainAll(s: Store, published: seq<nat>, top: nat, count: nat): Store
    decreases |published|
  {
    if published == [] then s else
      RetainOne(RetainAll(s, published[..|published| - 1], top, count),
                published[|published| - 1], |published| - 1, top, count)
  }

  /** Every published version, newest first. */
  ghost predicate Published(keys: set<nat>, top: nat, published: seq<nat>) {
    && (forall i, j :: 0 <= i < j < |published| ==> published[j] < published[i])
    && (forall i :: 0 <= i < |published| ==> |Newer(keys, top, published[i])| == i)
    && Elements(published) == set v | v in keys && v <= top
  }

  /** A key of version `v`, given the rank of `v` among the published versions. */
  ghost predicate Retained<T(!new)>(
      before: map<nat, Entry<T>>, after: map<nat, Entry<T>>, v: nat, rank: nat, top: nat, count: nat) {
    if v !in before then v !in after
    else if v == top then v in after && after[v] == before[v].(ttl := false)
    else if rank < count then v in after && after[v] == before[v].(ttl := true)
    else v !in after
  }

  ghost predicate Untouched<T(!new)>(before: map<nat, Entry<T>>, after: map<nat, Entry<T>>, v: nat) {
    (v in after <==> v in before) && (v in after ==> after[v] == before[v])
  }

  lemma {:induction false} RetainPrefix(s: Store, published: seq<nat>, top: nat, count: nat, v: nat)
    requires forall i, j :: 0 <= i < j < |published| ==> published[j] < published[i]
    ensures var r := RetainAll(s, published, top, count);
            && r.active == s.active
            && (v !in published ==> Untouched(s.payloads, r.payloads, v) && Untouched(s.manifests, r.manifests, v))
            && (forall i :: 0 <= i < |published| && published[i] == v ==>
                  Retained(s.payloads, r.payloads, v, i, top, count)
                  && Retained(s.manifests, r.manifests, v, i, top, count))
    decreases |published|
  {
    if published != [] {
      var init, last := published[..|published| - 1], published[|published| - 1];
      RetainPrefix(s, init, top, count, v);
      RetainStep(s, RetainAll(s, init, top, count), last, |init|, top, count, v);
    }
  }

  lemma {:induction false} RetainStep(first: Store, s: Store, w: nat, rank: nat, top: nat, count: nat, v: nat)
    ensures var r := RetainOne(s, w, rank, top, count);
            && r.active == s.active
            && (v != w ==> Untouched(s.payloads, r.payloads, v) && Untouched(s.manifests, r.manifests, v))
            && (v == w && Untouched(first.payloads, s.payloads, v) ==>
                  Retained(first.payloads, r.payloads, v, rank, top, count))
            && (v == w && Untouched(first.manifests, s.manifests, v) ==>
                  Retained(first.manifests, r.manifests, v, rank, top, count))
  {
  }

  /** Retention, undisturbed, leaves the version it was called for without TTL, gives
      the next `count - 1` published versions one, deletes the older ones, and touches
      no version above and no manifest without a payload. */
  lemma {:induction false} RetentionResult(s: Store, published: seq<nat>, top: nat, count: nat, v: nat)
    requires count >= 1 && Published(s.payloads.Keys, top, published)
    ensures var r := RetainAll(s, published, top, count);
            && r.active == s.active
            && (if v in s.payloads && v <= top then
                  var rank := |Newer(s.payloads.Keys, top, v)|;
                  && Retained(s.payloads, r.payloads, v, rank, top, count)
                  && Retained(s.manifests, r.manifests, v, rank, top, count)
                else
                  Untouched(s.payloads, r.payloads, v) && Untouched(s.manifests, r.manifests, v))
  {
    RetainPrefix(s, published, top, count, v);
    assert v in published <==> v in Elements(published);
  }

  class RedisSnapshots {
    var payloads: map<nat, Entry<Snapshot>>
    var manifests: map<nat, Entry<string>>
    var active: Option<nat>

    ghost function State(): Store
      reads this
    {
      Store(payloads, manifests, active)
    }

    constructor ()
      ensures State() == EMPTY
    {
      payloads, manifests, active := map[], map[], None;
    }

    method RunWritePending(snapshot: Snapshot) returns (result: WriteResult)
      modifies this
      ensures (State(), result) == WritePending(old(State()), snapshot)
    {
      if snapshot.version !in payloads {
        payloads := payloads[snapshot.version := Entry(snapshot, false)];
        return Created;
      }
      return if payloads[snapshot.version].value == snapshot then Same else Conflict;
    }

    method RunMarkReady(loaded: Snapshot, checksum: string) returns (result: int)
      modifies this
      ensures (State(), result) == MarkReady(old(State()), loaded, checksum)
    {
      if loaded.version !in payloads { return -1; }
      if payloads[loaded.version].value != loaded { return -2; }
      if loaded.version in manifests {
        return if manifests[loaded.version].value != checksum then -3 else 0;
      }
      manifests := manifests[loaded.version := Entry(checksum, false)];
      return 1;
    }

    method RunActivate(version: nat, checksum: string) returns (result: int)
      modifies this
      ensures (State(), result) == Activate(old(State()), version, checksum)
    {
      if version !in payloads { return -1; }
      if version !in manifests { return -2; }
      if manifests[version].value != checksum { return -3; }
      if active.Some? && active.value > version { return 0; }
      active := Some(version);
      return 1;
    }

    /** The versions a sweep looks at: those up to `top`, newest first. */
    static method Descending(keys: set<nat>, top: nat) returns (published: seq<nat>)
      ensures Published(keys, top, published)
    {
      published := [];
      var rest := set v | v in keys && v <= top;
      while rest != {}
        invariant rest == (set v | v in keys && v <= top) - Elements(published)
        invariant forall i :: 0 <= i < |published| ==> published[i] in keys && published[i] <= top
        invariant forall i, j :: 0 <= i < j < |published| ==> published[j] < published[i]
        invariant forall i, v :: 0 <= i < |published| && v in rest ==> v < published[i]
        invariant forall i :: 0 <= i < |published| ==> |Newer(keys, top, published[i])| == i
        decreases rest
      {
        GreatestExists(rest);
        var greatest :| greatest in rest && forall v :: v in rest ==> v <= greatest;
        RankIs(keys, top, published, rest, greatest);
        published := published + [greatest];
        rest := rest - {greatest};
      }
      forall v: nat | v in keys && v <= top ensures v in Elements(published) {
        assert v !in Elements(published) ==> v in rest;
      }
    }

    method RetainVersions(top: nat, count: nat) returns (ghost published: seq<nat>)
      requires count >= 1
      modifies this
      ensures Published(old(payloads).Keys, top, published)
      ensures State() == RetainAll(old(State()), published, top, count)
    {
      var versions := Descending(payloads.Keys, top);
      published := versions;
      RetainEach(versions, top, count);
    }

    method RetainEach(versions: seq<nat>, top: nat, count: nat)
      modifies this
      ensures State() == RetainAll(old(State()), versions, top, count)
    {
      for i := 0 to |versions|
        invariant State() == RetainAll(old(State()), versions[..i], top, count)
      {
        assert versions[..i + 1][..i] == versions[..i];
        var v := versions[i];
        if v == top {
          SetTtl(v, false);
        } else if i < count {
          SetTtl(v, true);
        } else {
          payloads := payloads - {v};
          manifests := manifests - {v};
        }
      }
      assert versions[..|versions|] == versions;
    }

    /** PERSIST or EXPIRE on the keys of a version; neither creates a key. */
    method SetTtl(v: nat, ttl: bool)
      modifies this`payloads, this`manifests
      ensures State() == SetManifestTtl(SetPayloadTtl(old(State()), v, ttl), v, ttl)
    {
      if v in payloads { payloads := payloads[v := payloads[v].(ttl := ttl)]; }
      if v in manifests { manifests := manifests[v := manifests[v].(ttl := ttl)]; }
    }
  }

  lemma {:induction false} RankIs(keys: set<nat>, top: nat, published: seq<nat>, rest: set<nat>, greatest: nat)
    requires rest == (set v | v in keys && v <= top) - Elements(published)
    requires greatest in rest && forall v :: v in rest ==> v <= greatest
    requires forall i :: 0 <= i < |published| ==> published[i] in keys && published[i] <= top && greatest < published[i]
    requires forall i, j :: 0 <= i < j < |published| ==> published[j] < published[i]
    ensures |Newer(keys, top, greatest)| == |published|
  {
    DistinctCount(published);
    forall v | v in Newer(keys, top, greatest) ensures v in Elements(published) {
      assert v !in Elements(published) ==> v in rest;
    }
    assert Newer(keys, top, greatest) == Elements(published);
  }
}
