/** The runtime catalogue (mixapi/routing_catalog.py), alias resolution and the checks of
    the publisher (mixapi/publication.py) over a configuration snapshot. */
module RoutingCatalog {
  import opened Prelude
  import opened Sorting
  import opened SnapshotJson
  import opened ConfigurationSnapshot

  /** A catalogue entry copies fields of its candidate and of the candidate's provider. */
  datatype Entry = Entry(candidate: Candidate, provider: Provider)

  type Catalog = map<string, seq<Entry>>

  /** The sort key (logical model, priority, id). */
  predicate CatalogBefore(a: Candidate, b: Candidate) {
    Less(a.logicalModelId, b.logicalModelId) ||
    (a.logicalModelId == b.logicalModelId
     && (a.priority < b.priority || (a.priority == b.priority && Less(a.id, b.id))))
  }

  function CatalogOrder(): (Candidate, Candidate) -> bool { (a: Candidate, b: Candidate) => CatalogBefore(a, b) }

  function Sorted(candidates: seq<Candidate>): seq<Candidate> { Sort(candidates, CatalogOrder()) }

  function ProviderOf(providers: seq<Provider>, id: string): (p: Provider)
    requires HasProvider(providers, id)
    ensures p in providers && p.id == id
    decreases |providers|
  {
    if providers[|providers| - 1].id == id then providers[|providers| - 1]
    else ProviderOf(providers[..|providers| - 1], id)
  }

  function OfModel(id: string): Candidate -> bool { (c: Candidate) => c.logicalModelId == id }

  lemma {:induction false} CatalogKeyOrder()
    ensures KeyOrder(CatalogOrder())
  {
    var before := CatalogOrder();
    forall x ensures !before(x, x) {
      LessTotal(x.logicalModelId, x.logicalModelId);
      LessTotal(x.id, x.id);
    }
    forall x, y, z | before(x, y) && before(y, z) ensures before(x, z) { CatalogTransitive(x, y, z); }
    forall x, y, z | before(x, z) ensures before(x, y) || before(y, z) {
      CatalogTotal(x, y);
      CatalogTotal(y, z);
      if before(y, x) { CatalogTransitive(y, x, z); }
    }
  }

  lemma {:induction false} CatalogTransitive(x: Candidate, y: Candidate, z: Candidate)
    requires CatalogBefore(x, y) && CatalogBefore(y, z)
    ensures CatalogBefore(x, z)
  {
    if Less(x.logicalModelId, y.logicalModelId) && Less(y.logicalModelId, z.logicalModelId) {
      LessTransitive(x.logicalModelId, y.logicalModelId, z.logicalModelId);
    }
    if Less(x.id, y.id) && Less(y.id, z.id) { LessTransitive(x.id, y.id, z.id); }
  }

  /** Candidates that tie agree in all three parts of the key. */
  lemma {:induction false} CatalogTotal(x: Candidate, y: Candidate)
    ensures CatalogBefore(x, y) || CatalogBefore(y, x)
         || (x.logicalModelId == y.logicalModelId && x.priority == y.priority && x.id == y.id)
  {
    LessTotal(x.logicalModelId, y.logicalModelId);
    LessTotal(x.id, y.id);
  }

  predicate Servable(s: Snapshot, c: Candidate) {
    HasProvider(s.providers, c.providerConnectionId) && HasModel(s.models, c.logicalModelId)
  }

  lemma {:induction false} SortedKeeps(s: Snapshot)
    requires Closed(s)
    ensures multiset(Sorted(s.candidates)) == multiset(s.candidates)
    ensures forall i :: 0 <= i < |Sorted(s.candidates)| ==> Servable(s, Sorted(s.candidates)[i])
  {
    SortPermutes(s.candidates, CatalogOrder());
    forall i | 0 <= i < |Sorted(s.candidates)| ensures Sorted(s.candidates)[i] in s.candidates {
      assert Sorted(s.candidates)[i] in multiset(Sorted(s.candidates));
    }
  }

  /** The catalogue built from the first candidates of a sorted list. */
  ghost predicate Built(s: Snapshot, catalog: Catalog, candidates: seq<Candidate>) {
    && (forall id :: id in catalog <==> HasModel(s.models, id))
    && (forall i :: 0 <= i < |candidates| ==> HasProvider(s.providers, candidates[i].providerConnectionId))
    && forall id :: id in catalog ==> BuiltFor(s, catalog[id], Filter(candidates, OfModel(id)))
  }

  ghost predicate BuiltFor(s: Snapshot, entries: seq<Entry>, candidates: seq<Candidate>) {
    && |entries| == |candidates|
    && forall i :: 0 <= i < |entries| ==>
         && entries[i].candidate == candidates[i]
         && entries[i].provider in s.providers && entries[i].provider.id == candidates[i].providerConnectionId
  }

  lemma {:induction false} BuiltNext(s: Snapshot, catalog: Catalog, candidates: seq<Candidate>, c: Candidate)
    requires Built(s, catalog, candidates) && HasProvider(s.providers, c.providerConnectionId)
    requires c.logicalModelId in catalog
    ensures var entry := Entry(c, ProviderOf(s.providers, c.providerConnectionId));
      Built(s, catalog[c.logicalModelId := catalog[c.logicalModelId] + [entry]],
                  candidates + [c])
  {
    assert (candidates + [c])[..|candidates|] == candidates;
    forall id | id in catalog
      ensures Filter(candidates + [c], OfModel(id))
           == Filter(candidates, OfModel(id)) + if id == c.logicalModelId then [c] else []
    {
      FilterLast(candidates + [c], OfModel(id));
    }
  }

  function ModelIds(models: seq<Model>): (ids: set<string>)
    ensures forall id :: id in ids <==> HasModel(models, id)
  {
    set i | 0 <= i < |models| :: models[i].id
  }

  /** One round of the loop. */
  function Add(s: Snapshot, catalog: Catalog, c: Candidate): Catalog
    requires HasProvider(s.providers, c.providerConnectionId) && c.logicalModelId in catalog
  {
    catalog[c.logicalModelId := catalog[c.logicalModelId] + [Entry(c, ProviderOf(s.providers, c.providerConnectionId))]]
  }

  predicate Found(s: Snapshot, catalog: Catalog, c: Candidate) {
    HasProvider(s.providers, c.providerConnectionId) && c.logicalModelId in catalog
  }

  function Added(s: Snapshot, start: Catalog, candidates: seq<Candidate>): (r: Catalog)
    requires forall i :: 0 <= i < |candidates| ==> Found(s, start, candidates[i])
    ensures r.Keys == start.Keys
    decreases |candidates|
  {
    if candidates == [] then start else
      assert Found(s, start, candidates[|candidates| - 1]);
      Add(s, Added(s, start, candidates[..|candidates| - 1]), candidates[|candidates| - 1])
  }

  lemma {:induction false} AddedIsBuilt(s: Snapshot, start: Catalog, candidates: seq<Candidate>)
    requires Built(s, start, [])
    requires forall i :: 0 <= i < |candidates| ==> Found(s, start, candidates[i])
    ensures Built(s, Added(s, start, candidates), candidates)
    decreases |candidates|
  {
    if candidates != [] {
      var before, last := candidates[..|candidates| - 1], candidates[|candidates| - 1];
      assert candidates == before + [last] && Found(s, start, last);
      AddedIsBuilt(s, start, before);
      AddBuilds(s, Added(s, start, before), before, last, candidates);
    }
  }

  lemma {:induction false} AddBuilds(
      s: Snapshot, catalog: Catalog, before: seq<Candidate>, last: Candidate, all: seq<Candidate>)
    requires Built(s, catalog, before) && Found(s, catalog, last) && all == before + [last]
    ensures Built(s, Add(s, catalog, last), all)
  {
    BuiltNext(s, catalog, before, last);
  }

  method AddCandidates(s: Snapshot, start: Catalog, sorted: seq<Candidate>) returns (catalog: Catalog)
    requires forall i :: 0 <= i < |sorted| ==> Found(s, start, sorted[i])
    ensures catalog == Added(s, start, sorted)
  {
    catalog := start;
    for i := 0 to |sorted|
      invariant catalog == Added(s, start, sorted[..i])
    {
      var c := sorted[i];
      assert Found(s, start, c) && sorted[..i + 1][..i] == sorted[..i];
      var provider := ProviderOf(s.providers, c.providerConnectionId);
      catalog := catalog[c.logicalModelId := catalog[c.logicalModelId] + [Entry(c, provider)]];
    }
    assert sorted[..|sorted|] == sorted;
  }

  method EmptyCatalog(s: Snapshot) returns (catalog: Catalog)
    ensures Built(s, catalog, [])
  {
    catalog := map id | id in ModelIds(s.models) :: [];
  }

  lemma {:induction false} StartFinds(s: Snapshot, start: Catalog)
    requires Built(s, start, []) && forall i :: 0 <= i < |Sorted(s.candidates)| ==> Servable(s, Sorted(s.candidates)[i])
    ensures forall i :: 0 <= i < |Sorted(s.candidates)| ==> Found(s, start, Sorted(s.candidates)[i])
  {
    forall i | 0 <= i < |Sorted(s.candidates)| ensures Found(s, start, Sorted(s.candidates)[i]) {
      assert Servable(s, Sorted(s.candidates)[i]);
    }
  }

  /** `catalog_from_snapshot`.  For a closed snapshot no lookup misses. */
  method CatalogFromSnapshot(s: Snapshot) returns (catalog: Catalog)
    requires Closed(s)
    ensures Built(s, catalog, Sorted(s.candidates))
  {
    SortedKeeps(s);
    var start := EmptyCatalog(s);
    StartFinds(s, start);
    catalog := AddCandidates(s, start, Sorted(s.candidates));
    AddedIsBuilt(s, start, Sorted(s.candidates));
  }

  lemma {:induction false} FilterOrdered(s: seq<Candidate>, keep: Candidate -> bool)
    requires InOrder(s, CatalogOrder())
    ensures InOrder(Filter(s, keep), CatalogOrder())
    decreases |s|
  {
    if s != [] {
      var init, last := s[..|s| - 1], s[|s| - 1];
      FilterOrdered(init, keep);
      FilterMembers(init, keep);
      forall k | 0 <= k < |Filter(init, keep)| ensures !CatalogOrder()(last, Filter(init, keep)[k]) {
        assert Filter(init, keep)[k] in init;
      }
    }
  }

  lemma {:induction false} FilterCounts(s: seq<Candidate>, keep: Candidate -> bool, c: Candidate)
    ensures multiset(Filter(s, keep))[c] == if keep(c) then multiset(s)[c] else 0
    decreases |s|
  {
    if s != [] {
      var before, last := s[..|s| - 1], s[|s| - 1];
      FilterCounts(before, keep, c);
      FilterLast(s, keep);
      assert s == before + [last];
      CountLast(before, last, c);
      CountLast(Filter(before, keep), last, c);
    }
  }

  function CandidatesOf(entries: seq<Entry>): seq<Candidate> {
    seq(|entries|, i requires 0 <= i < |entries| => entries[i].candidate)
  }

  lemma {:induction false} OwnInOrder(own: seq<Candidate>, id: string)
    requires InOrder(own, CatalogOrder()) && forall c :: c in own ==> c.logicalModelId == id
    ensures forall i, j :: 0 <= i < j < |own| ==>
      own[i].priority < own[j].priority || (own[i].priority == own[j].priority && !Less(own[j].id, own[i].id))
  {
    forall i, j | 0 <= i < j < |own|
      ensures own[i].priority < own[j].priority || (own[i].priority == own[j].priority && !Less(own[j].id, own[i].id))
    {
      assert !CatalogOrder()(own[j], own[i]);
      assert own[i] in own && own[j] in own;
    }
  }

  lemma {:induction false} EntriesAreOwn(s: Snapshot, catalog: Catalog, id: string)
    requires Built(s, catalog, Sorted(s.candidates)) && id in catalog
    ensures CandidatesOf(catalog[id]) == Filter(Sorted(s.candidates), OfModel(id))
  {
  }

  /** Total catalogue: a closed snapshot has an entry list for every model and no other,
      and a candidate stands exactly as often under its own model as in the snapshot and
      never under another. */
  lemma {:induction false} CatalogIsTotal(s: Snapshot, catalog: Catalog, id: string, c: Candidate)
    requires Closed(s) && Built(s, catalog, Sorted(s.candidates))
    ensures id in catalog <==> HasModel(s.models, id)
    ensures id in catalog ==>
      multiset(CandidatesOf(catalog[id]))[c] == if c.logicalModelId == id then multiset(s.candidates)[c] else 0
  {
    if id in catalog {
      EntriesAreOwn(s, catalog, id);
      SortedKeeps(s);
      FilterCounts(Sorted(s.candidates), OfModel(id), c);
    }
  }

  /** Each entry list is in ascending (priority, id). */
  lemma {:induction false} CatalogIsOrdered(s: Snapshot, catalog: Catalog, id: string, i: nat, j: nat)
    requires Built(s, catalog, Sorted(s.candidates)) && id in catalog && i < j < |catalog[id]|
    ensures var a, b := catalog[id][i].candidate, catalog[id][j].candidate;
      a.priority < b.priority || (a.priority == b.priority && !Less(b.id, a.id))
  {
    var own := Filter(Sorted(s.candidates), OfModel(id));
    EntriesAreOwn(s, catalog, id);
    CatalogKeyOrder();
    SortInOrder(s.candidates, CatalogOrder());
    FilterOrdered(Sorted(s.candidates), OfModel(id));
    FilterMembers(Sorted(s.candidates), OfModel(id));
    OwnInOrder(own, id);
    assert CandidatesOf(catalog[id])[i] == own[i] && CandidatesOf(catalog[id])[j] == own[j];
  }

  // --------------------------------------------------------------------------- aliases

  /** `resolve_model_id`. */
  function ResolveModelId(s: Snapshot, requested: string): Option<string> {
    if HasModel(s.models, requested) then Some(requested)
    else if requested in s.aliases then Some(s.aliases[requested]) else None
  }

  datatype Problem = IncompleteConfiguration | InvalidAlias | InvalidModelCandidate | MissingModelCandidate

  /** The comprehension over models and their aliases: a later pair replaces an earlier. */
  function ModelAliases(id: string, names: seq<string>): map<string, string>
    decreases |names|
  {
    if names == [] then map[] else ModelAliases(id, names[..|names| - 1])[names[|names| - 1] := id]
  }

  function ExpectedAliases(models: seq<Model>): map<string, string>
    decreases |models|
  {
    if models == [] then map[] else
      ExpectedAliases(models[..|models| - 1]) + ModelAliases(models[|models| - 1].id, models[|models| - 1].aliases)
  }

  ghost predicate CandidateAllowed(config: Configuration, c: Candidate) {
    HasModel(config.models, c.logicalModelId) && HasProvider(config.providers, c.providerConnectionId)
  }

  /** What `_validate` accepts, before it checks each provider's credential. */
  ghost predicate Acceptable(config: Configuration) {
    && config.providers != [] && config.models != []
    && config.aliases == ExpectedAliases(config.models)
    && (forall alias :: alias in config.aliases ==> !HasModel(config.models, alias))
    && (forall i :: 0 <= i < |config.candidates| ==> CandidateAllowed(config, config.candidates[i]))
    && forall i :: 0 <= i < |config.models| ==> HasCandidate(config.candidates, config.models[i].id)
  }

  ghost predicate HasCandidate(candidates: seq<Candidate>, id: string) {
    exists j :: 0 <= j < |candidates| && candidates[j].logicalModelId == id
  }

  function Count(candidates: seq<Candidate>, id: string): nat
    decreases |candidates|
  {
    if candidates == [] then 0 else
      Count(candidates[..|candidates| - 1], id) + if candidates[|candidates| - 1].logicalModelId == id then 1 else 0
  }

  lemma {:induction false} CountZero(candidates: seq<Candidate>, id: string)
    ensures Count(candidates, id) == 0 <==> forall j :: 0 <= j < |candidates| ==> candidates[j].logicalModelId != id
    decreases |candidates|
  {
    if candidates != [] { CountZero(candidates[..|candidates| - 1], id); }
  }

  ghost predicate Counted(config: Configuration, counts: map<string, nat>, n: nat) {
    && n <= |config.candidates|
    && (forall k :: 0 <= k < n ==> CandidateAllowed(config, config.candidates[k]))
    && (forall id :: id in counts <==> HasModel(config.models, id))
    && forall id :: id in counts ==> counts[id] == Count(config.candidates[..n], id)
  }

  lemma {:induction false} CountNext(config: Configuration, counts: map<string, nat>, n: nat)
    requires Counted(config, counts, n) && n < |config.candidates| && CandidateAllowed(config, config.candidates[n])
    ensures var id := config.candidates[n].logicalModelId;
      id in counts && Counted(config, counts[id := counts[id] + 1], n + 1)
  {
    assert config.candidates[..n + 1][..n] == config.candidates[..n];
  }

  /** The counting loop of `_validate`. */
  method CountCandidates(config: Configuration) returns (counts: map<string, nat>, bad: bool)
    ensures bad <==> exists i :: 0 <= i < |config.candidates| && !CandidateAllowed(config, config.candidates[i])
    ensures !bad ==> Counted(config, counts, |config.candidates|)
  {
    counts, bad := map id | id in ModelIds(config.models) :: 0, false;
    for i := 0 to |config.candidates|
      invariant !bad && Counted(config, counts, i)
    {
      var candidate := config.candidates[i];
      if || !HasModel(config.models, candidate.logicalModelId)
         || !HasProvider(config.providers, candidate.providerConnectionId) {
        bad := true;
        return;
      }
      CountNext(config, counts, i);
      counts := counts[candidate.logicalModelId := counts[candidate.logicalModelId] + 1];
    }
  }

  /** `ConfigurationPublisher._validate`. */
  method ValidateConfiguration(config: Configuration) returns (problem: Option<Problem>)
    ensures problem.None? <==> Acceptable(config)
  {
    if config.providers == [] || config.models == [] { return Some(IncompleteConfiguration); }
    if || config.aliases != ExpectedAliases(config.models)
       || exists alias :: alias in config.aliases && HasModel(config.models, alias) {
      return Some(InvalidAlias);
    }
    var counts, bad := CountCandidates(config);
    if bad { return Some(InvalidModelCandidate); }
    assert config.candidates[..|config.candidates|] == config.candidates;
    forall i | 0 <= i < |config.models|
      ensures counts[config.models[i].id] == 0 <==> !HasCandidate(config.candidates, config.models[i].id)
    {
      CountZero(config.candidates, config.models[i].id);
    }
    if exists id :: id in counts && counts[id] == 0 { return Some(MissingModelCandidate); }
    return None;
  }

  // ---------------------------------------------------- what a published snapshot offers

  predicate Lists(m: Model, alias: string) { alias in m.aliases }

  lemma {:induction false} ModelAliasesAre(id: string, names: seq<string>)
    ensures forall a :: a in ModelAliases(id, names) <==> a in names
    ensures forall a :: a in ModelAliases(id, names) ==> ModelAliases(id, names)[a] == id
    decreases |names|
  {
    if names != [] {
      ModelAliasesAre(id, names[..|names| - 1]);
      assert names == names[..|names| - 1] + [names[|names| - 1]];
    }
  }

  /** An alias goes to the last model that lists it. */
  lemma {:induction false} ExpectedAliasIsLast(models: seq<Model>, alias: string) returns (i: nat)
    ensures alias in ExpectedAliases(models) <==> exists k :: 0 <= k < |models| && Lists(models[k], alias)
    ensures alias in ExpectedAliases(models) ==>
      && i < |models| && Lists(models[i], alias) && ExpectedAliases(models)[alias] == models[i].id
      && forall k :: i < k < |models| ==> !Lists(models[k], alias)
    decreases |models|
  {
    i := 0;
    if models != [] {
      var last := models[|models| - 1];
      ModelAliasesAre(last.id, last.aliases);
      i := ExpectedAliasIsLast(models[..|models| - 1], alias);
      if Lists(last, alias) { i := |models| - 1; }
    }
  }

  ghost predicate ListedOnce(models: seq<Model>) {
    forall i, j, alias :: 0 <= i < j < |models| && Lists(models[i], alias) ==> !Lists(models[j], alias)
  }

  /** Under the unique constraint on aliases an alias goes to the model that lists it. */
  lemma {:induction false} OnlyListerIsLast(models: seq<Model>, i: nat, alias: string)
    requires ListedOnce(models) && i < |models| && Lists(models[i], alias)
    ensures alias in ExpectedAliases(models) && ExpectedAliases(models)[alias] == models[i].id
  {
    var last := ExpectedAliasIsLast(models, alias);
    assert last == i;
  }

  lemma {:induction false} SameModels(config: Configuration, s: Snapshot, id: string)
    requires multiset(s.models) == multiset(Normalized(config.models))
    ensures HasModel(s.models, id) <==> HasModel(config.models, id)
  {
    if HasModel(s.models, id) {
      var i :| 0 <= i < |s.models| && s.models[i].id == id;
      assert s.models[i] in multiset(Normalized(config.models));
      var k :| 0 <= k < |Normalized(config.models)| && Normalized(config.models)[k] == s.models[i];
      assert config.models[k].id == id;
    }
    if HasModel(config.models, id) {
      var k :| 0 <= k < |config.models| && config.models[k].id == id;
      assert Normalized(config.models)[k] in multiset(s.models);
      var i :| 0 <= i < |s.models| && s.models[i] == Normalized(config.models)[k];
    }
  }

  lemma {:induction false} CreatedKeeps(c: Codec, version: int, generatedAt: Time, config: Configuration)
    requires Create(c, version, generatedAt, config).Ok?
    ensures var s := Create(c, version, generatedAt, config).value;
      && multiset(s.models) == multiset(Normalized(config.models))
      && multiset(s.candidates) == multiset(config.candidates)
      && s.aliases == config.aliases && Closed(s)
  {
    SortPermutes(Normalized(config.models), ByKey(ModelId()));
    SortPermutes(config.candidates, ByKey(CandidateId()));
    CreatedIs(c, version, generatedAt, config);
    GraphErrorIff(Create(c, version, generatedAt, config).value);
  }

  /** After the publisher's checks, every model of the snapshot has a catalogue entry and
      resolves to itself, and every alias hides no model and resolves to one that lists it:
      to the one that lists it, under the unique constraint on aliases. */
  lemma {:induction false} PublishedSnapshotIsUsable(
      c: Codec, version: int, generatedAt: Time, config: Configuration, catalog: Catalog, name: string)
    requires Acceptable(config) && Create(c, version, generatedAt, config).Ok?
    requires var s := Create(c, version, generatedAt, config).value; Built(s, catalog, Sorted(s.candidates))
    ensures var s := Create(c, version, generatedAt, config).value;
      && (HasModel(s.models, name) ==> ResolveModelId(s, name) == Some(name) && name in catalog && catalog[name] != [])
      && (name in s.aliases ==>
            && !HasModel(s.models, name) && ResolveModelId(s, name) == Some(s.aliases[name])
            && s.aliases[name] in catalog
            && exists k :: && 0 <= k < |config.models| && Lists(config.models[k], name)
                           && config.models[k].id == s.aliases[name])
      && (ListedOnce(config.models) ==>
            forall k :: 0 <= k < |config.models| && Lists(config.models[k], name) ==>
              ResolveModelId(s, name) == Some(config.models[k].id))
  {
    var s := Create(c, version, generatedAt, config).value;
    CreatedKeeps(c, version, generatedAt, config);
    SameModels(config, s, name);
    if HasModel(s.models, name) {
      var k :| 0 <= k < |config.models| && config.models[k].id == name;
      EntryForModel(s, config, catalog, name);
    }
    if name in s.aliases {
      var i := ExpectedAliasIsLast(config.models, name);
    }
    if ListedOnce(config.models) {
      forall k | 0 <= k < |config.models| && Lists(config.models[k], name)
        ensures ResolveModelId(s, name) == Some(config.models[k].id)
      {
        OnlyListerIsLast(config.models, k, name);
      }
    }
  }

  lemma {:induction false} EntryForModel(s: Snapshot, config: Configuration, catalog: Catalog, id: string)
    requires Closed(s) && Built(s, catalog, Sorted(s.candidates))
    requires multiset(s.candidates) == multiset(config.candidates)
    requires HasModel(s.models, id) && HasCandidate(config.candidates, id)
    ensures id in catalog && catalog[id] != []
  {
    var j :| 0 <= j < |config.candidates| && config.candidates[j].logicalModelId == id;
    var c := config.candidates[j];
    assert c in multiset(s.candidates);
    CatalogIsTotal(s, catalog, id, c);
    assert multiset(CandidatesOf(catalog[id]))[c] > 0;
    assert c in CandidatesOf(catalog[id]);
  }
}
