/** The Redis authentication cache (mixapi/auth_cache.py) in front of the API keys and
    tenant policies of mixapi/repositories/control_plane.py.  An operation of either side
    is one step under one clock. */
module AuthCache {
  import opened Prelude

  /** A row of `api_keys`; the rows are indexed by their `key_hash`, which is unique, as is
      `id`.  An update keeps the hash, the id, the tenant and the project. */
  datatype KeyRecord = KeyRecord(
    id: string, name: string, tenant: string, project: string, scopes: seq<string>, allowlist: seq<string>,
    budget: Option<int>, expiresAt: Option<int>, active: bool)

  datatype Policy = Policy(allowlist: seq<string>, objective: Option<string>)

  datatype Authentication = Authentication(
    tenant: string, project: string, keyId: string, scopes: seq<string>, allowlist: Option<seq<string>>,
    budget: Option<int>, objective: Option<string>, expiresAt: Option<int>)

  /** A cached value, `None` if it cannot be decoded, and a set of key hashes: each lives
      until its time to live runs out.  `AuthenticationJson` is about the text of a value. */
  datatype Entry = Entry(value: Option<Authentication>, until: int)
  datatype Members = Members(hashes: set<string>, until: int)

  datatype State = State(
    now: int,
    keys: map<string, KeyRecord>,
    policies: map<string, Policy>,
    cache: map<string, Entry>,
    tenants: map<string, Members>)

  // ------------------------------------------------------------------------- allowlists

  function Listed(models: seq<string>, others: seq<string>): seq<string>
    decreases |models|
  {
    if models == [] then [] else
      Listed(models[..|models| - 1], others) + if models[|models| - 1] in others then [models[|models| - 1]] else []
  }

  /** `_effective_model_allowlist`. */
  function Effective(keyList: seq<string>, tenantList: seq<string>): Option<seq<string>> {
    if keyList == [] && tenantList == [] then None
    else if keyList == [] then Some(tenantList)
    else if tenantList == [] then Some(keyList)
    else Some(Listed(keyList, tenantList))
  }

  /** A stored list restricts only if it is not empty; an effective one unless it is absent. */
  predicate Unrestricted(list: seq<string>, model: string) { list == [] || model in list }
  predicate Admits(list: Option<seq<string>>, model: string) { list.None? || model in list.value }

  lemma {:induction false} ListedMembers(models: seq<string>, others: seq<string>, model: string)
    ensures model in Listed(models, others) <==> model in models && model in others
    decreases |models|
  {
    if models != [] {
      ListedMembers(models[..|models| - 1], others, model);
      assert models == models[..|models| - 1] + [models[|models| - 1]];
    }
  }

  /** A model is admitted exactly when the key's list and the tenant's list both admit it;
      lists without a common model admit nothing rather than everything. */
  lemma {:induction false} EffectiveAdmitsBoth(keyList: seq<string>, tenantList: seq<string>, model: string)
    ensures Admits(Effective(keyList, tenantList), model)
       <==> Unrestricted(keyList, model) && Unrestricted(tenantList, model)
  {
    ListedMembers(keyList, tenantList, model);
  }

  // -------------------------------------------------------------------------- the database

  predicate Expired(expiresAt: Option<int>, now: int) { expiresAt.Some? && expiresAt.value <= now }

  function PolicyOf(s: State, tenant: string): Policy {
    if tenant in s.policies then s.policies[tenant] else Policy([], None)
  }

  function FromRecords(k: KeyRecord, p: Policy): Authentication {
    Authentication(k.tenant, k.project, k.id, k.scopes, Effective(k.allowlist, p.allowlist), k.budget, p.objective,
                   k.expiresAt)
  }

  /** What the loader finds in the database: `resolve_api_key`, then `get_tenant_policy`. */
  function Load(s: State, hash: string): Option<Authentication> {
    if hash !in s.keys || !s.keys[hash].active || Expired(s.keys[hash].expiresAt, s.now) then None
    else Some(FromRecords(s.keys[hash], PolicyOf(s, s.keys[hash].tenant)))
  }

  // ----------------------------------------------------------------------------- the cache

  predicate Cached(s: State, hash: string) { hash in s.cache && s.now < s.cache[hash].until }

  function LiveHashes(s: State, tenant: string): set<string> {
    if tenant in s.tenants && s.now < s.tenants[tenant].until then s.tenants[tenant].hashes else {}
  }

  /** `SETEX`, `SADD` and `EXPIRE` in one transaction. */
  function Remember(s: State, hash: string, a: Authentication, ttl: int): State {
    s.(cache := s.cache[hash := Entry(Some(a), s.now + ttl)],
       tenants := s.tenants[a.tenant := Members(LiveHashes(s, a.tenant) + {hash}, s.now + ttl)])
  }

  function Forget(s: State, hash: string): State { s.(cache := s.cache - {hash}) }

  function ForgetTenant(s: State, tenant: string): State {
    s.(cache := s.cache - LiveHashes(s, tenant), tenants := s.tenants - {tenant})
  }

  /** `RedisAuthCache.resolve`. */
  function Resolve(s: State, hash: string, ttl: int): (State, Option<Authentication>) {
    if Cached(s, hash) && s.cache[hash].value.Some? then
      var a := s.cache[hash].value.value;
      if Expired(a.expiresAt, s.now) then (Forget(s, hash), None) else (s, Some(a))
    else
      var s' := if Cached(s, hash) then Forget(s, hash) else s;
      var loaded := Load(s', hash);
      if loaded.None? then (s', None) else (Remember(s', hash, loaded.value, ttl), loaded)
  }

  // --------------------------------------------------------------------------------- runs

  /** The changes given to `update_api_key`: the columns it may change, each if named. */
  datatype Changes = Changes(
    name: Option<string>, scopes: Option<seq<string>>, allowlist: Option<seq<string>>,
    budget: Option<Option<int>>, expiresAt: Option<Option<int>>)

  function OrKeep<T>(given: Option<T>, current: T): T { if given.Some? then given.value else current }

  function Changed(k: KeyRecord, c: Changes): KeyRecord {
    k.(name := OrKeep(c.name, k.name), scopes := OrKeep(c.scopes, k.scopes),
       allowlist := OrKeep(c.allowlist, k.allowlist),
       budget := OrKeep(c.budget, k.budget), expiresAt := OrKeep(c.expiresAt, k.expiresAt))
  }

  /** What an `UPDATE` does to a row: changes named columns, or revokes it. */
  datatype Amendment = Change(changes: Changes) | Revoke

  function Amended(k: KeyRecord, a: Amendment): KeyRecord {
    match a
    case Change(changes) => Changed(k, changes)
    case Revoke => k.(active := false)
  }

  /** The hashes of the rows with an id. */
  function HashesOf(keys: map<string, KeyRecord>, id: string): set<string> {
    set hash | hash in keys && keys[hash].id == id
  }

  /** `UPDATE ... WHERE id = %s`. */
  function Amend(keys: map<string, KeyRecord>, id: string, a: Amendment): map<string, KeyRecord> {
    map hash | hash in keys :: if keys[hash].id == id then Amended(keys[hash], a) else keys[hash]
  }

  ghost predicate UniqueIds(keys: map<string, KeyRecord>) {
    forall g, h :: g in keys && h in keys && keys[g].id == keys[h].id ==> g == h
  }

  datatype Op =
    | Tick(seconds: nat)
    | DoResolve(hash: string)
    | CreateKey(hash: string, record: KeyRecord)
    | AmendKey(id: string, amendment: Amendment)
    | SetPolicy(tenant: string, policy: Policy)
    | Overwrite(hash: string, until: int)

  /** `Overwrite` is any value that this version cannot decode; a created key's hash and id
      are new, since both are random and unique. */
  function Step(s: State, op: Op, ttl: int): State {
    match op
    case Tick(seconds) => s.(now := s.now + seconds)
    case DoResolve(hash) => Resolve(s, hash, ttl).0
    case CreateKey(hash, record) =>
      if hash in s.keys || HashesOf(s.keys, record.id) != {} then s else s.(keys := s.keys[hash := record])
    case AmendKey(id, a) => s.(keys := Amend(s.keys, id, a), cache := s.cache - HashesOf(s.keys, id))
    case SetPolicy(tenant, policy) => ForgetTenant(s.(policies := s.policies[tenant := policy]), tenant)
    case Overwrite(hash, until) => s.(cache := s.cache[hash := Entry(None, until)])
  }

  function Run(s: State, ops: seq<Op>, ttl: int): State
    decreases |ops|
  {
    if ops == [] then s else Step(Run(s, ops[..|ops| - 1], ttl), ops[|ops| - 1], ttl)
  }

  /** Every live decodable entry is what the database says, but for the key's expiry, and
      is a member of its tenant's set, which lives at least as long. */
  ghost predicate Fresh(s: State, hash: string, ttl: int) {
    Cached(s, hash) && s.cache[hash].value.Some? ==>
      && hash in s.keys && s.keys[hash].active
      && s.cache[hash].value.value == FromRecords(s.keys[hash], PolicyOf(s, s.keys[hash].tenant))
      && s.keys[hash].tenant in s.tenants
      && hash in s.tenants[s.keys[hash].tenant].hashes
      && s.cache[hash].until <= s.tenants[s.keys[hash].tenant].until
      && s.cache[hash].until <= s.now + ttl
  }

  ghost predicate Inv(s: State, ttl: int) { forall hash :: hash in s.cache ==> Fresh(s, hash, ttl) }

  lemma {:induction false} FreshAll(s: State, hash: string, ttl: int)
    requires Inv(s, ttl)
    ensures Fresh(s, hash, ttl)
  {
  }

  lemma {:induction false} RememberFresh(s: State, hash: string, ttl: int)
    requires Inv(s, ttl) && ttl > 0 && Load(s, hash).Some?
    ensures Inv(Remember(s, hash, Load(s, hash).value, ttl), ttl)
  {
    var s' := Remember(s, hash, Load(s, hash).value, ttl);
    forall h | h in s'.cache ensures Fresh(s', h, ttl) {
      if h != hash { FreshAll(s, h, ttl); }
    }
  }

  lemma {:induction false} ForgetFresh(s: State, hash: string, ttl: int)
    requires Inv(s, ttl)
    ensures Inv(Forget(s, hash), ttl)
  {
    forall h | h in s.cache && h != hash ensures Fresh(Forget(s, hash), h, ttl) { FreshAll(s, h, ttl); }
  }

  lemma {:induction false} ResolveFresh(s: State, hash: string, ttl: int)
    requires Inv(s, ttl) && ttl > 0
    ensures Inv(Resolve(s, hash, ttl).0, ttl)
  {
    ForgetFresh(s, hash, ttl);
    if Load(s, hash).Some? { RememberFresh(s, hash, ttl); }
    if Load(Forget(s, hash), hash).Some? { RememberFresh(Forget(s, hash), hash, ttl); }
  }

  lemma {:induction false} AmendFresh(s: State, id: string, a: Amendment, ttl: int)
    requires Inv(s, ttl)
    ensures Inv(Step(s, AmendKey(id, a), ttl), ttl)
  {
    var s' := Step(s, AmendKey(id, a), ttl);
    forall h | h in s'.cache ensures Fresh(s', h, ttl) {
      FreshAll(s, h, ttl);
      if Cached(s, h) && s.cache[h].value.Some? { assert s'.keys[h] == s.keys[h]; }
    }
  }

  lemma {:induction false} PolicyFresh(s: State, tenant: string, policy: Policy, ttl: int)
    requires Inv(s, ttl)
    ensures Inv(ForgetTenant(s.(policies := s.policies[tenant := policy]), tenant), ttl)
  {
    var s' := ForgetTenant(s.(policies := s.policies[tenant := policy]), tenant);
    forall h | h in s'.cache ensures Fresh(s', h, ttl) {
      FreshAll(s, h, ttl);
      assert h in s.cache && s'.cache[h] == s.cache[h];
    }
  }

  lemma {:induction false} StepFresh(s: State, op: Op, ttl: int)
    requires Inv(s, ttl) && ttl > 0
    ensures Inv(Step(s, op, ttl), ttl)
  {
    var s' := Step(s, op, ttl);
    match op
    case Tick(_) => forall h | h in s'.cache ensures Fresh(s', h, ttl) { FreshAll(s, h, ttl); }
    case DoResolve(hash) => ResolveFresh(s, hash, ttl);
    case CreateKey(hash, record) => forall h | h in s'.cache ensures Fresh(s', h, ttl) { FreshAll(s, h, ttl); }
    case AmendKey(id, a) => AmendFresh(s, id, a, ttl);
    case SetPolicy(tenant, policy) => PolicyFresh(s, tenant, policy, ttl);
    case Overwrite(hash, _) => forall h | h in s'.cache ensures Fresh(s', h, ttl) { FreshAll(s, h, ttl); }
  }

  lemma {:induction false} RunFresh(s: State, ops: seq<Op>, ttl: int)
    requires Inv(s, ttl) && ttl > 0
    ensures Inv(Run(s, ops, ttl), ttl)
    decreases |ops|
  {
    if ops != [] {
      RunFresh(s, ops[..|ops| - 1], ttl);
      StepFresh(Run(s, ops[..|ops| - 1], ttl), ops[|ops| - 1], ttl);
    }
  }

  /** In every state reached from an empty cache, `resolve` returns what the loader would. */
  lemma {:induction false} ResolveAgreesWithDatabase(s: State, ops: seq<Op>, ttl: int, hash: string)
    requires s.cache == map[] && ttl > 0
    ensures var s' := Run(s, ops, ttl); Resolve(s', hash, ttl).1 == Load(s', hash)
  {
    RunFresh(s, ops, ttl);
    FreshAll(Run(s, ops, ttl), hash, ttl);
  }

  /** The key is in force: its row is there, is active and has no expiry that has passed. */
  ghost predicate InForce(s: State, hash: string) {
    && hash in s.keys && s.keys[hash].active
    && (s.keys[hash].expiresAt.None? || s.now < s.keys[hash].expiresAt.value)
  }

  /** What the rows of a key and of its tenant allow the key to do. */
  ghost predicate Grants(s: State, k: KeyRecord, a: Authentication, model: string) {
    var restricted := k.tenant in s.policies;
    && a.tenant == k.tenant && a.project == k.project && a.keyId == k.id && a.scopes == k.scopes
    && a.budget == k.budget && a.expiresAt == k.expiresAt
    && a.objective == (if restricted then s.policies[k.tenant].objective else None)
    && (a.allowlist.None? || model in a.allowlist.value <==>
          && (k.allowlist == [] || model in k.allowlist)
          && (restricted ==> s.policies[k.tenant].allowlist == [] || model in s.policies[k.tenant].allowlist))
  }

  lemma {:induction false} LoadGrants(s: State, hash: string, model: string)
    ensures Load(s, hash).Some? <==> InForce(s, hash)
    ensures Load(s, hash).Some? ==> Grants(s, s.keys[hash], Load(s, hash).value, model)
  {
    if InForce(s, hash) {
      EffectiveAdmitsBoth(s.keys[hash].allowlist, PolicyOf(s, s.keys[hash].tenant).allowlist, model);
    }
  }

  /** In every state reached from an empty cache, `resolve` accepts exactly the keys in force
      and gives each what its row and its tenant's policy grant: a model exactly if both
      lists admit it. */
  lemma {:induction false} ResolveGrantsWhatRowsGrant(s: State, ops: seq<Op>, ttl: int, hash: string, model: string)
    requires s.cache == map[] && ttl > 0
    ensures var s' := Run(s, ops, ttl);
            var a := Resolve(s', hash, ttl).1;
      && (a.Some? <==> InForce(s', hash))
      && (a.Some? ==> Grants(s', s'.keys[hash], a.value, model))
  {
    ResolveAgreesWithDatabase(s, ops, ttl, hash);
    LoadGrants(Run(s, ops, ttl), hash, model);
  }

  /** A live entry answers by itself until the key expires; anything else is replaced by what
      the rows grant, for the time to live and under the tenant's set, or leaves no entry. */
  lemma {:induction false} ResolveUsesEntries(s: State, hash: string, ttl: int, model: string)
    ensures var (s', a) := Resolve(s, hash, ttl);
            var live := hash in s.cache && s.now < s.cache[hash].until && s.cache[hash].value.Some?;
      && s'.now == s.now && s'.keys == s.keys && s'.policies == s.policies && s'.cache - {hash} == s.cache - {hash}
      && (live && !Expired(s.cache[hash].value.value.expiresAt, s.now) ==> s' == s && a == s.cache[hash].value)
      && (live && Expired(s.cache[hash].value.value.expiresAt, s.now) ==>
            a == None && hash !in s'.cache && s'.tenants == s.tenants)
      && (!live && InForce(s, hash) ==>
            && a.Some? && Grants(s, s.keys[hash], a.value, model)
            && hash in s'.cache && s'.cache[hash] == Entry(a, s.now + ttl)
            && s'.tenants == s.tenants[a.value.tenant := Members(LiveHashes(s, a.value.tenant) + {hash}, s.now + ttl)])
      && (!live && !InForce(s, hash) ==>
            a == None && s'.tenants == s.tenants && (hash in s'.cache ==> s.cache[hash].until <= s.now))
  {
    LoadGrants(s, hash, model);
    LoadGrants(Forget(s, hash), hash, model);
  }

  ghost predicate SameIdentity(k: KeyRecord, k': KeyRecord) {
    k'.id == k.id && k'.tenant == k.tenant && k'.project == k.project
  }

  ghost predicate SameColumns(k: KeyRecord, k': KeyRecord) {
    && k'.name == k.name && k'.scopes == k.scopes && k'.allowlist == k.allowlist
    && k'.budget == k.budget && k'.expiresAt == k.expiresAt
  }

  /** An update changes the named columns of the row with the id to the values given; revoking
      makes it inactive; nothing else changes in any row. */
  lemma {:induction false} AmendChangesOneRow(s: State, id: string, c: Changes, ttl: int, hash: string)
    requires hash in s.keys
    ensures var changed, revoked := Step(s, AmendKey(id, Change(c)), ttl), Step(s, AmendKey(id, Revoke), ttl);
            var k := s.keys[hash];
      && changed.keys.Keys == s.keys.Keys && revoked.keys.Keys == s.keys.Keys
      && (k.id != id ==> changed.keys[hash] == k && revoked.keys[hash] == k)
      && (k.id == id ==>
            && var k' := changed.keys[hash];
            && SameIdentity(k, k') && k'.active == k.active
            && k'.name == (if c.name.Some? then c.name.value else k.name)
            && k'.scopes == (if c.scopes.Some? then c.scopes.value else k.scopes)
            && k'.allowlist == (if c.allowlist.Some? then c.allowlist.value else k.allowlist)
            && k'.budget == (if c.budget.Some? then c.budget.value else k.budget)
            && k'.expiresAt == (if c.expiresAt.Some? then c.expiresAt.value else k.expiresAt)
            && SameIdentity(k, revoked.keys[hash]) && SameColumns(k, revoked.keys[hash])
            && !revoked.keys[hash].active)
  {
  }

  lemma {:induction false} StepKeepsRevoked(s: State, op: Op, ttl: int, hash: string)
    requires hash in s.keys && !s.keys[hash].active
    ensures hash in Step(s, op, ttl).keys && !Step(s, op, ttl).keys[hash].active
  {
  }

  lemma {:induction false} StaysRevoked(s: State, ops: seq<Op>, ttl: int, hash: string)
    requires hash in s.keys && !s.keys[hash].active
    ensures hash in Run(s, ops, ttl).keys && !Run(s, ops, ttl).keys[hash].active
    decreases |ops|
  {
    if ops != [] {
      StaysRevoked(s, ops[..|ops| - 1], ttl, hash);
      StepKeepsRevoked(Run(s, ops[..|ops| - 1], ttl), ops[|ops| - 1], ttl, hash);
    }
  }

  /** From the revocation of a key by its id on, no `resolve` of its secret accepts it,
      whatever was cached and whatever changes are made later. */
  lemma {:induction false} RevokedNeverResolves(
      s: State, before: seq<Op>, after: seq<Op>, ttl: int, hash: string, id: string)
    requires s.cache == map[] && ttl > 0
    requires var keys := Run(s, before, ttl).keys; hash in keys && keys[hash].id == id
    ensures Resolve(Run(Step(Run(s, before, ttl), AmendKey(id, Revoke), ttl), after, ttl), hash, ttl).1 == None
  {
    RunFresh(s, before, ttl);
    var revoked := Step(Run(s, before, ttl), AmendKey(id, Revoke), ttl);
    StepFresh(Run(s, before, ttl), AmendKey(id, Revoke), ttl);
    RunFresh(revoked, after, ttl);
    StaysRevoked(revoked, after, ttl, hash);
    FreshAll(Run(revoked, after, ttl), hash, ttl);
  }

  // ------------------------------------------------------------- the objects of the program

  class RedisAuthCache {
    const ttl: int
    var cache: map<string, Entry>
    var tenants: map<string, Members>

    constructor (ttl: int)
      ensures this.ttl == ttl && cache == map[] && tenants == map[]
    {
      this.ttl := ttl;
      cache, tenants := map[], map[];
    }

    /** The state of which `db` gives the clock and the tables. */
    function Seen(db: State): State
      reads this
    {
      db.(cache := cache, tenants := tenants)
    }

    /** `db` stands for the loader's connection. */
    method ResolveSecret(db: State, hash: string) returns (a: Option<Authentication>)
      modifies this
      ensures (Seen(db), a) == Resolve(old(Seen(db)), hash, ttl)
    {
      if hash in cache && db.now < cache[hash].until {
        var cached := cache[hash].value;
        if cached.Some? {
          if !Expired(cached.value.expiresAt, db.now) { return cached; }
          cache := cache - {hash};
          return None;
        }
        cache := cache - {hash};
      }
      var loaded := Load(db, hash);
      if loaded.None? { return None; }
      var tenant := loaded.value.tenant;
      var members := if tenant in tenants && db.now < tenants[tenant].until then tenants[tenant].hashes else {};
      cache := cache[hash := Entry(loaded, db.now + ttl)];
      tenants := tenants[tenant := Members(members + {hash}, db.now + ttl)];
      return loaded;
    }

    method DeleteKeyHash(ghost db: State, hash: string)
      modifies this
      ensures Seen(db) == Forget(old(Seen(db)), hash)
    {
      cache := cache - {hash};
    }

    method DeleteTenant(db: State, tenant: string)
      modifies this
      ensures Seen(db) == ForgetTenant(old(Seen(db)), tenant)
    {
      var hashes := if tenant in tenants && db.now < tenants[tenant].until then tenants[tenant].hashes else {};
      if hashes != {} { cache := cache - hashes; }
      tenants := tenants - {tenant};
      assert cache == old(cache) - hashes;
    }
  }

  /** `_update_tenant_policy` replaces the list, or else the objective, and keeps the other. */
  function NextPolicy(current: Policy, allowlist: Option<seq<string>>, objective: Option<string>): Policy {
    if allowlist.Some? then current.(allowlist := allowlist.value) else current.(objective := objective)
  }

  lemma {:induction false} AmendKeepsUnique(keys: map<string, KeyRecord>, id: string, a: Amendment)
    requires UniqueIds(keys)
    ensures UniqueIds(Amend(keys, id, a))
  {
    assert forall hash :: hash in keys ==> Amend(keys, id, a)[hash].id == keys[hash].id;
  }

  class ControlPlaneStore {
    var keys: map<string, KeyRecord>
    var policies: map<string, Policy>
    const authCache: RedisAuthCache

    constructor (authCache: RedisAuthCache)
      ensures Valid() && this.authCache == authCache && keys == map[] && policies == map[]
    {
      this.authCache := authCache;
      keys, policies := map[], map[];
    }

    function Now(now: int): State
      reads this, authCache
    {
      State(now, keys, policies, authCache.cache, authCache.tenants)
    }

    ghost predicate Valid()
      reads this
    {
      UniqueIds(keys)
    }

    /** The row with an id, read before it is changed. */
    method FindRow(id: string) returns (hash: Option<string>)
      requires Valid()
      ensures HashesOf(keys, id) == if hash.Some? then {hash.value} else {}
    {
      var hashes := HashesOf(keys, id);
      if hashes == {} { return None; }
      var found :| found in hashes;
      assert hashes == {found};
      return Some(found);
    }

    method UpdateApiKey(now: int, id: string, changes: Changes) returns (updated: Option<KeyRecord>)
      requires Valid()
      modifies this, authCache
      ensures Valid() && Now(now) == Step(old(Now(now)), AmendKey(id, Change(changes)), authCache.ttl)
      ensures updated.None? <==> HashesOf(old(keys), id) == {}
      ensures updated.Some? ==>
        exists hash :: hash in HashesOf(old(keys), id) && updated.value == Changed(old(keys)[hash], changes)
    {
      updated := AmendRow(now, id, Change(changes));
    }

    method RevokeApiKey(now: int, id: string) returns (revoked: Option<KeyRecord>)
      requires Valid()
      modifies this, authCache
      ensures Valid() && Now(now) == Step(old(Now(now)), AmendKey(id, Revoke), authCache.ttl)
      ensures revoked.None? <==> HashesOf(old(keys), id) == {}
      ensures revoked.Some? ==>
        exists hash :: hash in HashesOf(old(keys), id) && revoked.value == old(keys)[hash].(active := false)
    {
      revoked := AmendRow(now, id, Revoke);
    }

    /** What both have in common: the row is changed and its cache entry deleted, or there
        is no such row and nothing happens. */
    method AmendRow(now: int, id: string, a: Amendment) returns (amended: Option<KeyRecord>)
      requires Valid()
      modifies this, authCache
      ensures Valid() && Now(now) == Step(old(Now(now)), AmendKey(id, a), authCache.ttl)
      ensures amended.None? <==> HashesOf(old(keys), id) == {}
      ensures amended.Some? ==>
        exists hash :: hash in old(keys) && old(keys)[hash].id == id && amended.value == Amended(old(keys)[hash], a)
    {
      var hash := FindRow(id);
      AmendKeepsUnique(keys, id, a);
      if hash.None? {
        assert forall h :: h in keys ==> h !in HashesOf(keys, id);
        assert Amend(keys, id, a) == keys && authCache.cache - {} == authCache.cache;
        return None;
      }
      assert hash.value in HashesOf(keys, id);
      keys := keys[hash.value := Amended(keys[hash.value], a)];
      assert keys == Amend(old(keys), id, a);
      authCache.DeleteKeyHash(Now(now), hash.value);
      return Some(keys[hash.value]);
    }

    method UpdateTenantPolicy(now: int, tenant: string, allowlist: Option<seq<string>>, objective: Option<string>)
      returns (updated: Policy)
      modifies this, authCache
      ensures updated == NextPolicy(PolicyOf(old(Now(now)), tenant), allowlist, objective)
      ensures updated.allowlist ==
        if allowlist.Some? then allowlist.value else if tenant in old(policies) then old(policies)[tenant].allowlist
          else []
      ensures updated.objective ==
        if allowlist.None? then objective else if tenant in old(policies) then old(policies)[tenant].objective else None
      ensures policies == old(policies)[tenant := updated]
      ensures Now(now) == Step(old(Now(now)), SetPolicy(tenant, updated), authCache.ttl)
    {
      var current := if tenant in policies then policies[tenant] else Policy([], None);
      var nextAllowlist := if allowlist.None? then current.allowlist else allowlist.value;
      var nextObjective := if allowlist.Some? then current.objective else objective;
      updated := Policy(nextAllowlist, nextObjective);
      policies := policies[tenant := updated];
      var db := Now(now);
      authCache.DeleteTenant(db, tenant);
    }

    method AuthenticateSecret(now: int, hash: string) returns (a: Option<Authentication>)
      modifies authCache
      ensures Now(now) == Step(old(Now(now)), DoResolve(hash), authCache.ttl)
      ensures Inv(old(Now(now)), authCache.ttl) ==> a == Load(old(Now(now)), hash)
    {
      ghost var before := Now(now);
      var db := Now(now);
      a := authCache.ResolveSecret(db, hash);
      assert Inv(before, authCache.ttl) ==> Fresh(before, hash, authCache.ttl);
    }
  }
}
