/** `ConfigurationSnapshot` of mixapi/snapshots.py: canonical order, the reference graph,
    the checksum and the JSON round trip. */
module ConfigurationSnapshot {
  import opened Prelude
  import opened Sorting
  import opened SnapshotJson

  datatype Error =
    | VersionNotPositive | NoTimezone
    | DuplicateProvider | DuplicateModel | DuplicateCandidate
    | UnknownAliasTarget | UnknownProvider | UnknownModel

  datatype Result<T> = Ok(value: T) | Err(error: Error)

  datatype Configuration = Configuration(
    providers: seq<Provider>, models: seq<Model>, candidates: seq<Candidate>, aliases: map<string, string>)

  datatype Snapshot = Snapshot(
    version: int, generatedAt: Time, providers: seq<Provider>, models: seq<Model>, candidates: seq<Candidate>,
    aliases: map<string, string>, checksum: string)

  const SCHEMA_VERSION := 1

  function ProviderId(): Provider -> string { (p: Provider) => p.id }
  function ModelId(): Model -> string { (m: Model) => m.id }
  function CandidateId(): Candidate -> string { (c: Candidate) => c.id }

  // --------------------------------------------------------------------------- the graph

  predicate HasProvider(providers: seq<Provider>, id: string) {
    exists i | 0 <= i < |providers| :: providers[i].id == id
  }

  predicate HasModel(models: seq<Model>, id: string) { exists i | 0 <= i < |models| :: models[i].id == id }

  function FirstBadCandidate(s: Snapshot, i: nat): Option<Error>
    requires i <= |s.candidates|
    decreases |s.candidates| - i
  {
    if i == |s.candidates| then None
    else if !HasProvider(s.providers, s.candidates[i].providerConnectionId) then Some(UnknownProvider)
    else if !HasModel(s.models, s.candidates[i].logicalModelId) then Some(UnknownModel)
    else FirstBadCandidate(s, i + 1)
  }

  /** `_validate_graph`: what it raises, if anything. */
  function GraphError(s: Snapshot): Option<Error> {
    if !DistinctKeys(s.providers, ProviderId()) then Some(DuplicateProvider)
    else if !DistinctKeys(s.models, ModelId()) then Some(DuplicateModel)
    else if !DistinctKeys(s.candidates, CandidateId()) then Some(DuplicateCandidate)
    else if exists alias :: alias in s.aliases && !HasModel(s.models, s.aliases[alias]) then Some(UnknownAliasTarget)
    else FirstBadCandidate(s, 0)
  }

  /** The graph is closed: ids are unique and every reference has its target. */
  ghost predicate Closed(s: Snapshot) {
    && DistinctKeys(s.providers, ProviderId()) && DistinctKeys(s.models, ModelId())
    && DistinctKeys(s.candidates, CandidateId())
    && (forall alias :: alias in s.aliases ==> HasModel(s.models, s.aliases[alias]))
    && forall i :: 0 <= i < |s.candidates| ==>
         HasProvider(s.providers, s.candidates[i].providerConnectionId)
         && HasModel(s.models, s.candidates[i].logicalModelId)
  }

  lemma {:induction false} NoBadCandidate(s: Snapshot, i: nat)
    requires i <= |s.candidates|
    ensures FirstBadCandidate(s, i).None? <==> forall k :: i <= k < |s.candidates| ==>
      HasProvider(s.providers, s.candidates[k].providerConnectionId)
      && HasModel(s.models, s.candidates[k].logicalModelId)
    decreases |s.candidates| - i
  {
    if i < |s.candidates| { NoBadCandidate(s, i + 1); }
  }

  lemma {:induction false} GraphErrorIff(s: Snapshot)
    ensures GraphError(s).None? <==> Closed(s)
  {
    NoBadCandidate(s, 0);
  }

  // -------------------------------------------------------------------------- to JSON

  function AliasFields(aliases: map<string, string>): map<Key, Json> {
    map k | k in (set a | a in aliases :: Name(a)) :: JStr(aliases[k.text])
  }

  function Dicts<T>(items: seq<T>, write: T -> Json): Json {
    JList(seq(|items|, k requires 0 <= k < |items| => write(items[k])))
  }

  function WriteProvider(c: Codec): Provider -> Json { (p: Provider) => ProviderToDict(c, p) }
  function WriteModel(c: Codec): Model -> Json { (m: Model) => ModelToDict(c, m) }
  function WriteCandidate(c: Codec): Candidate -> Json { (m: Candidate) => CandidateToDict(c, m) }

  function ContentFields(c: Codec, s: Snapshot): map<Key, Json> {
    map[
      SchemaVersion := JInt(SCHEMA_VERSION), Version := JInt(s.version),
      GeneratedAt := JStr(c.isoformat(s.generatedAt)),
      Providers := Dicts(s.providers, WriteProvider(c)), LogicalModels := Dicts(s.models, WriteModel(c)),
      Candidates := Dicts(s.candidates, WriteCandidate(c)),
      Aliases := JObj(AliasFields(s.aliases))]
  }

  /** `to_json`, as a tree: `None` for a checksum that does not match. */
  function ToJson(c: Codec, s: Snapshot): Option<Json> {
    var content := ContentFields(c, s);
    if s.checksum != c.checksum(JObj(content)) then None else Some(JObj(content[Checksum := JStr(s.checksum)]))
  }

  // --------------------------------------------------------------------------- create

  function Normalized(models: seq<Model>): seq<Model> {
    seq(|models|, k requires 0 <= k < |models| => models[k].(aliases := SortStrings(models[k].aliases)))
  }

  /** The snapshot that `create` builds before it knows the checksum. */
  function Draft(version: int, generatedAt: Time, config: Configuration): Snapshot {
    Snapshot(version, generatedAt,
             Sort(config.providers, ByKey(ProviderId())),
             Sort(Normalized(config.models), ByKey(ModelId())),
             Sort(config.candidates, ByKey(CandidateId())),
             config.aliases, "")
  }

  function Create(c: Codec, version: int, generatedAt: Time, config: Configuration): Result<Snapshot> {
    if version <= 0 then Err(VersionNotPositive)
    else if !Aware(generatedAt) then Err(NoTimezone)
    else
      var s := Draft(version, generatedAt, config);
      var error := GraphError(s);
      if error.Some? then Err(error.value) else Ok(s.(checksum := c.checksum(JObj(ContentFields(c, s)))))
  }

  /** The same rows in any order, each model with its aliases in any order. */
  ghost predicate Reordered(a: Configuration, b: Configuration) {
    && multiset(a.providers) == multiset(b.providers)
    && multiset(Normalized(a.models)) == multiset(Normalized(b.models))
    && multiset(a.candidates) == multiset(b.candidates)
    && a.aliases == b.aliases
  }

  /** `create` gives one result, snapshot with checksum or error, for every reordering. */
  lemma {:induction false} CreateIsCanonical(
      c: Codec, version: int, generatedAt: Time, a: Configuration, b: Configuration)
    requires Reordered(a, b)
    ensures Create(c, version, generatedAt, a) == Create(c, version, generatedAt, b)
  {
    SortByKeyIsCanonical(a.providers, b.providers, ProviderId());
    SortByKeyIsCanonical(Normalized(a.models), Normalized(b.models), ModelId());
    SortByKeyIsCanonical(a.candidates, b.candidates, CandidateId());
  }

  // ------------------------------------------------------------------------- from JSON

  function ReadAll<T>(items: seq<Json>, read: Json -> Option<T>): Option<seq<T>>
    decreases |items|
  {
    if items == [] then Some([]) else
      var before, last := ReadAll(items[..|items| - 1], read), read(items[|items| - 1]);
      if before.Some? && last.Some? then Some(before.value + [last.value]) else None
  }

  function ReadList<T>(j: Json, read: Json -> Option<T>): Option<seq<T>> {
    if j.JList? then ReadAll(j.items, read) else None
  }

  function ReadProvider(c: Codec): Json -> Option<Provider> { (j: Json) => ProviderFromDict(c, j) }
  function ReadModel(c: Codec): Json -> Option<Model> { (j: Json) => ModelFromDict(c, j) }
  function ReadCandidate(c: Codec): Json -> Option<Candidate> { (j: Json) => CandidateFromDict(c, j) }

  /** `_aliases_from_dict`; JSON keys are strings, so every key is a `Name`. */
  function ReadAliases(j: Json): Option<map<string, string>> {
    if j.JObj? && forall k :: k in j.fields ==> k.Name? && j.fields[k].JStr? then
      Some(map a | a in (set k | k in j.fields :: k.text) :: j.fields[Name(a)].s)
    else None
  }

  const SNAPSHOT_KEYS := {SchemaVersion, Version, GeneratedAt, Providers, LogicalModels, Candidates, Aliases, Checksum}

  predicate ChecksumMatches(c: Codec, fields: map<Key, Json>)
    requires Checksum in fields
  {
    fields[Checksum].JStr? && |fields[Checksum].s| == 64 && fields[Checksum].s == c.checksum(JObj(fields - {Checksum}))
  }

  /** The lists are sorted by id. */
  predicate Canonical(s: Snapshot) {
    && Sort(s.providers, ByKey(ProviderId())) == s.providers
    && Sort(s.models, ByKey(ModelId())) == s.models
    && Sort(s.candidates, ByKey(CandidateId())) == s.candidates
  }

  function ReadContent(c: Codec, f: map<Key, Json>): Option<Snapshot>
    requires f.Keys == SNAPSHOT_KEYS
  {
    var generatedAt := ReadTime(c, f[GeneratedAt]);
    var providers := ReadList(f[Providers], ReadProvider(c));
    var models := ReadList(f[LogicalModels], ReadModel(c));
    var candidates := ReadList(f[Candidates], ReadCandidate(c));
    var aliases := ReadAliases(f[Aliases]);
    if && f[Version].JInt? && generatedAt.Some? && providers.Some? && models.Some? && candidates.Some? && aliases.Some?
       && f[Checksum].JStr?
    then Some(Snapshot(f[Version].n, generatedAt.value, providers.value, models.value, candidates.value, aliases.value,
                       f[Checksum].s))
    else None
  }

  /** `from_json` of the parsed tree: every failure is a SnapshotValidationError. */
  function FromJson(c: Codec, j: Json): Option<Snapshot> {
    if !j.JObj? || j.fields.Keys != SNAPSHOT_KEYS || j.fields[SchemaVersion] != JInt(SCHEMA_VERSION) then None
    else if !ChecksumMatches(c, j.fields) then None
    else
      var s := ReadContent(c, j.fields);
      if s.Some? && s.value.version > 0 && Canonical(s.value) && GraphError(s.value).None? then s else None
  }

  /** Whatever payload is accepted, the snapshot is closed, canonical and of a positive
      version, and the payload's checksum matches its content. */
  lemma {:induction false} AcceptedIsClosed(c: Codec, j: Json)
    requires FromJson(c, j).Some?
    ensures var s := FromJson(c, j).value;
      && Closed(s) && Canonical(s) && s.version > 0
      && j.JObj? && Checksum in j.fields && s.checksum == c.checksum(JObj(j.fields - {Checksum}))
  {
    GraphErrorIff(FromJson(c, j).value);
  }

  // ------------------------------------------------------------------------ round trip

  ghost predicate Timely(s: Snapshot) {
    && (forall i :: 0 <= i < |s.providers| ==> ProviderAware()(s.providers[i]))
    && (forall i :: 0 <= i < |s.models| ==> ModelAware()(s.models[i]))
    && (forall i :: 0 <= i < |s.candidates| ==> CandidateAware()(s.candidates[i]))
  }

  /** A list reads back exactly when each of its items does. */
  lemma {:induction false} ListBack<T(!new)>(items: seq<T>, write: T -> Json, read: Json -> Option<T>, good: T -> bool)
    requires forall i :: 0 <= i < |items| ==> read(write(items[i])) == if good(items[i]) then Some(items[i]) else None
    ensures ReadList(Dicts(items, write), read)
         == if forall i :: 0 <= i < |items| ==> good(items[i]) then Some(items) else None
    decreases |items|
  {
    if items != [] {
      var init := items[..|items| - 1];
      ListBack(init, write, read, good);
      assert Dicts(items, write).items[..|items| - 1] == Dicts(init, write).items;
      assert items == init + [items[|items| - 1]];
    }
  }

  lemma {:induction false} AliasFieldsAre(aliases: map<string, string>)
    ensures forall a :: a in aliases <==> Name(a) in AliasFields(aliases)
    ensures forall k :: k in AliasFields(aliases) ==> k.Name? && AliasFields(aliases)[k] == JStr(aliases[k.text])
  {
  }

  lemma {:induction false} AliasesBack(aliases: map<string, string>)
    ensures ReadAliases(JObj(AliasFields(aliases))) == Some(aliases)
  {
    var f := AliasFields(aliases);
    AliasFieldsAre(aliases);
    assert ReadAliases(JObj(f)).Some?;
    var read := ReadAliases(JObj(f)).value;
    forall a ensures a in read <==> a in aliases {
      if a in aliases { assert Name(a) in f && Name(a).text == a; }
    }
    assert forall a :: a in aliases ==> read[a] == f[Name(a)].s == aliases[a];
    assert read == aliases;
  }

  /** A payload with the fields of a snapshot. */
  ghost predicate HoldsSnapshot(c: Codec, f: map<Key, Json>, s: Snapshot) {
    && f.Keys == SNAPSHOT_KEYS && f[SchemaVersion] == JInt(SCHEMA_VERSION) && f[Version] == JInt(s.version)
    && f[GeneratedAt] == JStr(c.isoformat(s.generatedAt))
    && f[Providers] == Dicts(s.providers, WriteProvider(c)) && f[LogicalModels] == Dicts(s.models, WriteModel(c))
    && f[Candidates] == Dicts(s.candidates, WriteCandidate(c))
    && f[Aliases] == JObj(AliasFields(s.aliases)) && f[Checksum] == JStr(s.checksum)
  }

  function ProviderAware(): Provider -> bool { (p: Provider) => AwareTimes(p.createdAt, p.updatedAt, p.deletedAt) }
  function ModelAware(): Model -> bool { (m: Model) => AwareTimes(m.createdAt, m.updatedAt, m.deletedAt) }
  function CandidateAware(): Candidate -> bool { (m: Candidate) => AwareTimes(m.createdAt, m.updatedAt, m.deletedAt) }

  lemma {:induction false} ProvidersBack(c: Codec, providers: seq<Provider>)
    requires Lawful(c)
    ensures ReadList(Dicts(providers, WriteProvider(c)), ReadProvider(c))
         == if forall i :: 0 <= i < |providers| ==> ProviderAware()(providers[i]) then Some(providers) else None
  {
    forall i | 0 <= i < |providers| { ProviderBack(c, providers[i]); }
    ListBack(providers, WriteProvider(c), ReadProvider(c), ProviderAware());
  }

  lemma {:induction false} ModelsBack(c: Codec, models: seq<Model>)
    requires Lawful(c) && forall i :: 0 <= i < |models| ==> SortStrings(models[i].aliases) == models[i].aliases
    ensures ReadList(Dicts(models, WriteModel(c)), ReadModel(c))
         == if forall i :: 0 <= i < |models| ==> ModelAware()(models[i]) then Some(models) else None
  {
    forall i | 0 <= i < |models| { ModelBack(c, models[i]); }
    ListBack(models, WriteModel(c), ReadModel(c), ModelAware());
  }

  lemma {:induction false} CandidatesBack(c: Codec, candidates: seq<Candidate>)
    requires Lawful(c)
    ensures ReadList(Dicts(candidates, WriteCandidate(c)), ReadCandidate(c))
         == if forall i :: 0 <= i < |candidates| ==> CandidateAware()(candidates[i]) then Some(candidates) else None
  {
    forall i | 0 <= i < |candidates| { CandidateBack(c, candidates[i]); }
    ListBack(candidates, WriteCandidate(c), ReadCandidate(c), CandidateAware());
  }

  lemma {:induction false} ContentBack(c: Codec, f: map<Key, Json>, s: Snapshot)
    requires Lawful(c) && HoldsSnapshot(c, f, s) && Aware(s.generatedAt)
    requires forall i :: 0 <= i < |s.models| ==> SortStrings(s.models[i].aliases) == s.models[i].aliases
    ensures ReadContent(c, f) == if Timely(s) then Some(s) else None
  {
    ProvidersBack(c, s.providers);
    ModelsBack(c, s.models);
    CandidatesBack(c, s.candidates);
    AliasesBack(s.aliases);
  }

  lemma {:induction false} ContentKeys(c: Codec, s: Snapshot)
    ensures ContentFields(c, s).Keys
         == {SchemaVersion, Version, GeneratedAt, Providers, LogicalModels, Candidates, Aliases}
    ensures ContentFields(c, s).Keys + {Checksum} == SNAPSHOT_KEYS
  {
  }

  lemma {:induction false} ContentHolds(c: Codec, s: Snapshot)
    ensures var f := ContentFields(c, s);
      && Checksum !in f && f[Checksum := JStr(s.checksum)] - {Checksum} == f
      && HoldsSnapshot(c, f[Checksum := JStr(s.checksum)], s)
  {
    var f := ContentFields(c, s);
    ContentKeys(c, s);
    assert f[Checksum := JStr(s.checksum)].Keys == f.Keys + {Checksum};
  }

  lemma {:induction false} DraftIs(version: int, generatedAt: Time, config: Configuration)
    ensures var s := Draft(version, generatedAt, config);
      Canonical(s) && forall i :: 0 <= i < |s.models| ==> SortStrings(s.models[i].aliases) == s.models[i].aliases
  {
    SortTwice(config.providers, ProviderId());
    SortTwice(Normalized(config.models), ModelId());
    SortTwice(config.candidates, CandidateId());
    SortPermutes(Normalized(config.models), ByKey(ModelId()));
    AliasesSorted(config.models, Draft(version, generatedAt, config).models);
  }

  /** What `create` makes is canonical and closed, with every model's aliases sorted. */
  lemma {:induction false} CreatedIs(c: Codec, version: int, generatedAt: Time, config: Configuration)
    requires Create(c, version, generatedAt, config).Ok?
    ensures var s := Create(c, version, generatedAt, config).value;
      && Canonical(s) && GraphError(s).None? && s.version > 0 && Aware(s.generatedAt)
      && s.checksum == c.checksum(JObj(ContentFields(c, s)))
      && forall i :: 0 <= i < |s.models| ==> SortStrings(s.models[i].aliases) == s.models[i].aliases
  {
    var s, draft := Create(c, version, generatedAt, config).value, Draft(version, generatedAt, config);
    DraftIs(version, generatedAt, config);
    assert s == draft.(checksum := s.checksum);
    assert ContentFields(c, s) == ContentFields(c, draft);
    SameGraph(s, draft);
  }

  /** The rows of a configuration in the order of their ids, each model with its aliases in
      order: nothing is added, lost or changed. */
  ghost predicate Arranges(s: Snapshot, config: Configuration) {
    && multiset(s.providers) == multiset(config.providers) && InOrder(s.providers, ByKey(ProviderId()))
    && multiset(s.candidates) == multiset(config.candidates) && InOrder(s.candidates, ByKey(CandidateId()))
    && InOrder(s.models, ByKey(ModelId()))
    && s.aliases == config.aliases
  }

  ghost predicate ModelArranged(original: Model, m: Model) {
    && m.(aliases := original.aliases) == original
    && multiset(m.aliases) == multiset(original.aliases)
    && forall i, j :: 0 <= i < j < |m.aliases| ==> !Less(m.aliases[j], m.aliases[i])
  }

  lemma {:induction false} NormalizedArranges(models: seq<Model>, k: nat)
    requires k < |models|
    ensures |Normalized(models)| == |models| && ModelArranged(models[k], Normalized(models)[k])
  {
    var key := (text: string) => text;
    ByKeyIsOrder(key);
    SortInOrder(models[k].aliases, ByKey(key));
    SortPermutes(models[k].aliases, ByKey(key));
    var m := Normalized(models)[k];
    forall i, j | 0 <= i < j < |m.aliases| ensures !Less(m.aliases[j], m.aliases[i]) {
      assert !ByKey(key)(m.aliases[j], m.aliases[i]);
    }
  }

  lemma {:induction false} DraftArranges(version: int, generatedAt: Time, config: Configuration)
    ensures var s := Draft(version, generatedAt, config);
      && s.version == version && s.generatedAt == generatedAt && Arranges(s, config)
      && multiset(s.models) == multiset(Normalized(config.models))
  {
    ByKeyIsOrder(ProviderId());
    ByKeyIsOrder(ModelId());
    ByKeyIsOrder(CandidateId());
    SortInOrder(config.providers, ByKey(ProviderId()));
    SortInOrder(Normalized(config.models), ByKey(ModelId()));
    SortInOrder(config.candidates, ByKey(CandidateId()));
    SortPermutes(config.providers, ByKey(ProviderId()));
    SortPermutes(Normalized(config.models), ByKey(ModelId()));
    SortPermutes(config.candidates, ByKey(CandidateId()));
  }

  /** `create` succeeds exactly for a positive version, a time with an offset and rows whose
      graph is closed, and the snapshot holds these rows, in order, and nothing else. */
  lemma {:induction false} CreateHoldsRows(c: Codec, version: int, generatedAt: Time, config: Configuration)
    ensures var r := Create(c, version, generatedAt, config);
      && (r.Ok? <==> version > 0 && generatedAt.offset.Some? && Closed(Draft(version, generatedAt, config)))
      && Arranges(Draft(version, generatedAt, config), config)
      && (r.Ok? ==>
            && r.value == Draft(version, generatedAt, config).(checksum := r.value.checksum)
            && r.value.version == version && r.value.generatedAt == generatedAt && Arranges(r.value, config)
            && multiset(r.value.models) == multiset(Normalized(config.models)))
  {
    DraftArranges(version, generatedAt, config);
    GraphErrorIff(Draft(version, generatedAt, config));
  }

  lemma {:induction false} AliasesSorted(models: seq<Model>, sorted: seq<Model>)
    requires multiset(sorted) == multiset(Normalized(models))
    ensures forall i :: 0 <= i < |sorted| ==> SortStrings(sorted[i].aliases) == sorted[i].aliases
  {
    forall i | 0 <= i < |sorted| ensures SortStrings(sorted[i].aliases) == sorted[i].aliases {
      assert sorted[i] in multiset(sorted);
      assert sorted[i] in Normalized(models);
      var k :| 0 <= k < |models| && sorted[i] == models[k].(aliases := SortStrings(models[k].aliases));
      SortStringsCanonical(models[k].aliases, models[k].aliases);
    }
  }

  lemma {:induction false} SameGraph(s: Snapshot, t: Snapshot)
    requires t == s.(checksum := t.checksum)
    ensures GraphError(s) == GraphError(t)
  {
    SameBadCandidate(s, t, 0);
  }

  lemma {:induction false} SameBadCandidate(s: Snapshot, t: Snapshot, i: nat)
    requires t == s.(checksum := t.checksum) && i <= |s.candidates|
    ensures FirstBadCandidate(s, i) == FirstBadCandidate(t, i)
    decreases |s.candidates| - i
  {
    if i < |s.candidates| { SameBadCandidate(s, t, i + 1); }
  }

  lemma {:induction false} SortTwice<T(!new)>(xs: seq<T>, key: T -> string)
    ensures Sort(Sort(xs, ByKey(key)), ByKey(key)) == Sort(xs, ByKey(key))
  {
    ByKeyIsOrder(key);
    SortInOrder(xs, ByKey(key));
    SortOfOrdered(Sort(xs, ByKey(key)), ByKey(key));
  }

  /** Round trip: a created snapshot always has a JSON form, and reading that form gives
      back the snapshot exactly when all its timestamps carry an offset; if one does not,
      the payload that was just written is refused. */
  lemma {:induction false} SnapshotRoundTrip(c: Codec, version: int, generatedAt: Time, config: Configuration)
    requires Lawful(c) && Create(c, version, generatedAt, config).Ok?
    ensures var s := Create(c, version, generatedAt, config).value;
      && ToJson(c, s).Some?
      && FromJson(c, ToJson(c, s).value) == if Timely(s) then Some(s) else None
  {
    var s := Create(c, version, generatedAt, config).value;
    CreatedIs(c, version, generatedAt, config);
    ContentHolds(c, s);
    ContentBack(c, ContentFields(c, s)[Checksum := JStr(s.checksum)], s);
  }

  /** `mark_ready` loads the stored payload, encodes it again and lets the script compare
      the two texts: for a payload that was written they never differ. */
  lemma {:induction false} ReencodingIsStable(c: Codec, version: int, generatedAt: Time, config: Configuration)
    requires Lawful(c) && Create(c, version, generatedAt, config).Ok?
    ensures var s := Create(c, version, generatedAt, config).value;
      && ToJson(c, s).Some?
      && match FromJson(c, ToJson(c, s).value)
         case None => !Timely(s)
         case Some(loaded) => ToJson(c, loaded) == ToJson(c, s)
  {
    SnapshotRoundTrip(c, version, generatedAt, config);
  }
}
