/** Configuration records and the JSON trees that mixapi/snapshots.py makes of them and
    reads back. */
module SnapshotJson {
  import opened Prelude
  import opened Sorting
  import Base64Url

  type Byte = Base64Url.Byte

  /** An offset is absent from a naive timestamp. */
  datatype Time = Time(micros: int, offset: Option<int>)

  predicate Aware(t: Time) { t.offset.Some? }

  /** The keys of the fixed records; `Name` is any key of free content. */
  datatype Key =
    | Name(text: string)
    | Id | ProviderName | Protocol | BaseUrl | Credential | KeyVersion | Nonce | Ciphertext | Fingerprint
    | TimeoutSeconds | Status | Priority | Weight | Metadata | CreatedAt | UpdatedAt | DeletedAt
    | Description | Aliases | LogicalModelId | ProviderConnectionId | UpstreamModelId | ContextWindowTokens
    | MaxOutputTokens | InputModalities | OutputModalities | ToolModes | SchemaSupport | StreamingSupport
    | EmbeddingsSupport | RetentionClass | Regions | Pricing | NativeFeatures | UnsupportedParameters
    | SchemaVersion | Version | GeneratedAt | Providers | LogicalModels | Candidates | Checksum
    | TenantId | ProjectId | ApiKeyId | Scopes | ModelAllowlist | BudgetLimit | RoutingObjective | ExpiresAt

  datatype Json =
    | JNull
    | JBool(b: bool)
    | JInt(n: int)
    | JStr(s: string)
    | JList(items: seq<Json>)
    | JObj(fields: map<Key, Json>)

  /** Timestamps and bytes as text, and the digest of a canonically encoded tree. */
  datatype Codec = Codec(
    isoformat: Time -> string, fromisoformat: string -> Option<Time>,
    b64encode: seq<Byte> -> string, b64decode: string -> Option<seq<Byte>>, checksum: Json -> string)

  ghost predicate Lawful(c: Codec) {
    && (forall t :: c.fromisoformat(c.isoformat(t)) == Some(t))
    && (forall b :: c.b64decode(c.b64encode(b)) == Some(b))
    && (forall j :: |c.checksum(j)| == 64)
  }

  datatype EncryptedCredential = EncryptedCredential(keyVersion: int, nonce: seq<Byte>, ciphertext: seq<Byte>,
                                                     fingerprint: string)

  /** `timeoutSeconds` is the text of a decimal; `metadata` is already plain JSON. */
  datatype Provider = Provider(
    id: string, name: string, protocol: string, baseUrl: string, credential: EncryptedCredential,
    timeoutSeconds: string, status: string, priority: int, weight: int, metadata: map<Key, Json>,
    createdAt: Time, updatedAt: Time, deletedAt: Option<Time>)

  datatype Model = Model(
    id: string, description: string, status: string, aliases: seq<string>,
    createdAt: Time, updatedAt: Time, deletedAt: Option<Time>)

  datatype Candidate = Candidate(
    id: string, logicalModelId: string, providerConnectionId: string, upstreamModelId: string, status: string,
    priority: int, weight: int, contextWindowTokens: int, maxOutputTokens: int,
    inputModalities: seq<string>, outputModalities: seq<string>, toolModes: seq<string>, schemaSupport: string,
    streamingSupport: bool, embeddingsSupport: bool, retentionClass: string, regions: seq<string>,
    pricing: map<Key, Json>, nativeFeatures: seq<string>, unsupportedParameters: seq<string>,
    createdAt: Time, updatedAt: Time, deletedAt: Option<Time>)

  // --------------------------------------------------------------------------- fields

  function Strings(texts: seq<string>): Json { JList(seq(|texts|, k requires 0 <= k < |texts| => JStr(texts[k]))) }

  function OptionalTime(c: Codec, t: Option<Time>): Json { if t.Some? then JStr(c.isoformat(t.value)) else JNull }

  function ReadTime(c: Codec, j: Json): Option<Time> {
    if !j.JStr? then None else
      var t := c.fromisoformat(j.s);
      if t.Some? && Aware(t.value) then t else None
  }

  function ReadOptionalTime(c: Codec, j: Json): Option<Option<Time>> {
    if j.JNull? then Some(None) else
      var t := ReadTime(c, j);
      if t.Some? then Some(t) else None
  }

  predicate AllStrings(j: Json) { j.JList? && forall k :: 0 <= k < |j.items| ==> j.items[k].JStr? }

  function ReadStrings(j: Json): seq<string>
    requires AllStrings(j)
  {
    seq(|j.items|, k requires 0 <= k < |j.items| => j.items[k].s)
  }

  function ReadBytes(c: Codec, j: Json): Option<seq<Byte>> { if j.JStr? then c.b64decode(j.s) else None }

  lemma {:induction false} StringsBack(texts: seq<string>)
    ensures AllStrings(Strings(texts)) && ReadStrings(Strings(texts)) == texts
  {
  }

  // ---------------------------------------------------------------------- provider

  function CredentialToDict(c: Codec, e: EncryptedCredential): Json {
    JObj(map[KeyVersion := JInt(e.keyVersion), Nonce := JStr(c.b64encode(e.nonce)),
             Ciphertext := JStr(c.b64encode(e.ciphertext)), Fingerprint := JStr(e.fingerprint)])
  }

  function CredentialFromDict(c: Codec, j: Json): Option<EncryptedCredential> {
    if !j.JObj? || j.fields.Keys != {KeyVersion, Nonce, Ciphertext, Fingerprint} then None else
      var f := j.fields;
      var nonce, ciphertext := ReadBytes(c, f[Nonce]), ReadBytes(c, f[Ciphertext]);
      if f[KeyVersion].JInt? && nonce.Some? && ciphertext.Some? && f[Fingerprint].JStr?
      then Some(EncryptedCredential(f[KeyVersion].n, nonce.value, ciphertext.value, f[Fingerprint].s)) else None
  }

  function ProviderToDict(c: Codec, p: Provider): Json {
    JObj(map[
      Id := JStr(p.id), ProviderName := JStr(p.name), Protocol := JStr(p.protocol), BaseUrl := JStr(p.baseUrl),
      Credential := CredentialToDict(c, p.credential), TimeoutSeconds := JStr(p.timeoutSeconds),
      Status := JStr(p.status), Priority := JInt(p.priority), Weight := JInt(p.weight), Metadata := JObj(p.metadata),
      CreatedAt := JStr(c.isoformat(p.createdAt)), UpdatedAt := JStr(c.isoformat(p.updatedAt)),
      DeletedAt := OptionalTime(c, p.deletedAt)])
  }

  const PROVIDER_KEYS := {Id, ProviderName, Protocol, BaseUrl, Credential, TimeoutSeconds, Status, Priority, Weight,
                          Metadata, CreatedAt, UpdatedAt, DeletedAt}

  function ProviderFromDict(c: Codec, j: Json): Option<Provider> {
    if !j.JObj? || j.fields.Keys != PROVIDER_KEYS then None else
      var f := j.fields;
      var credential := CredentialFromDict(c, f[Credential]);
      var createdAt, updatedAt, deletedAt := ReadTime(c, f[CreatedAt]), ReadTime(c, f[UpdatedAt]),
          ReadOptionalTime(c, f[DeletedAt]);
      if && f[Id].JStr? && f[ProviderName].JStr? && f[Protocol].JStr? && f[BaseUrl].JStr? && credential.Some?
         && f[TimeoutSeconds].JStr? && f[Status].JStr? && f[Priority].JInt? && f[Weight].JInt? && f[Metadata].JObj?
         && createdAt.Some? && updatedAt.Some? && deletedAt.Some?
      then Some(Provider(f[Id].s, f[ProviderName].s, f[Protocol].s, f[BaseUrl].s, credential.value, f[TimeoutSeconds].s,
                         f[Status].s, f[Priority].n, f[Weight].n, f[Metadata].fields,
                         createdAt.value, updatedAt.value, deletedAt.value))
      else None
  }

  predicate AwareTimes(createdAt: Time, updatedAt: Time, deletedAt: Option<Time>) {
    Aware(createdAt) && Aware(updatedAt) && (deletedAt.Some? ==> Aware(deletedAt.value))
  }

  lemma {:induction false} CredentialBack(c: Codec, e: EncryptedCredential)
    requires Lawful(c)
    ensures CredentialFromDict(c, CredentialToDict(c, e)) == Some(e)
  {
    assert CredentialToDict(c, e).fields.Keys == {KeyVersion, Nonce, Ciphertext, Fingerprint};
  }

  lemma {:induction false} ProviderKeys(c: Codec, p: Provider)
    ensures ProviderToDict(c, p).fields.Keys == PROVIDER_KEYS
  {
  }

  lemma {:induction false} TimesBack(c: Codec, createdAt: Time, updatedAt: Time, deletedAt: Option<Time>)
    requires Lawful(c)
    ensures ReadTime(c, JStr(c.isoformat(createdAt))) == if Aware(createdAt) then Some(createdAt) else None
    ensures ReadTime(c, JStr(c.isoformat(updatedAt))) == if Aware(updatedAt) then Some(updatedAt) else None
    ensures ReadOptionalTime(c, OptionalTime(c, deletedAt))
         == if deletedAt.Some? && !Aware(deletedAt.value) then None else Some(deletedAt)
  {
  }

  ghost predicate ProviderHolds(c: Codec, f: map<Key, Json>, p: Provider) {
    && f.Keys == PROVIDER_KEYS
    && f[Id] == JStr(p.id) && f[ProviderName] == JStr(p.name) && f[Protocol] == JStr(p.protocol)
    && f[BaseUrl] == JStr(p.baseUrl)
    && f[Credential] == CredentialToDict(c, p.credential) && f[TimeoutSeconds] == JStr(p.timeoutSeconds)
    && f[Status] == JStr(p.status) && f[Priority] == JInt(p.priority) && f[Weight] == JInt(p.weight)
    && f[Metadata] == JObj(p.metadata) && f[CreatedAt] == JStr(c.isoformat(p.createdAt))
    && f[UpdatedAt] == JStr(c.isoformat(p.updatedAt)) && f[DeletedAt] == OptionalTime(c, p.deletedAt)
  }

  lemma {:induction false} ProviderRead(c: Codec, f: map<Key, Json>, p: Provider)
    requires Lawful(c) && ProviderHolds(c, f, p)
    ensures ProviderFromDict(c, JObj(f)) == if AwareTimes(p.createdAt, p.updatedAt, p.deletedAt) then Some(p) else None
  {
    CredentialBack(c, p.credential);
    TimesBack(c, p.createdAt, p.updatedAt, p.deletedAt);
  }

  lemma {:induction false} ProviderDict(c: Codec, p: Provider)
    ensures ProviderHolds(c, ProviderToDict(c, p).fields, p)
  {
    ProviderKeys(c, p);
  }

  lemma {:induction false} ProviderBack(c: Codec, p: Provider)
    requires Lawful(c)
    ensures ProviderFromDict(c, ProviderToDict(c, p))
         == if AwareTimes(p.createdAt, p.updatedAt, p.deletedAt) then Some(p) else None
  {
    ProviderDict(c, p);
    ProviderRead(c, ProviderToDict(c, p).fields, p);
  }

  // -------------------------------------------------------------------------- model

  function ModelToDict(c: Codec, m: Model): Json {
    JObj(map[
      Id := JStr(m.id), Description := JStr(m.description), Status := JStr(m.status),
      Aliases := Strings(SortStrings(m.aliases)),
      CreatedAt := JStr(c.isoformat(m.createdAt)), UpdatedAt := JStr(c.isoformat(m.updatedAt)),
      DeletedAt := OptionalTime(c, m.deletedAt)])
  }

  const MODEL_KEYS := {Id, Description, Status, Aliases, CreatedAt, UpdatedAt, DeletedAt}

  function ModelFromDict(c: Codec, j: Json): Option<Model> {
    if !j.JObj? || j.fields.Keys != MODEL_KEYS then None else
      var f := j.fields;
      var createdAt, updatedAt, deletedAt := ReadTime(c, f[CreatedAt]), ReadTime(c, f[UpdatedAt]),
          ReadOptionalTime(c, f[DeletedAt]);
      if && f[Id].JStr? && f[Description].JStr? && f[Status].JStr?
         && AllStrings(f[Aliases]) && SortStrings(ReadStrings(f[Aliases])) == ReadStrings(f[Aliases])
         && createdAt.Some? && updatedAt.Some? && deletedAt.Some?
      then Some(Model(f[Id].s, f[Description].s, f[Status].s, ReadStrings(f[Aliases]), createdAt.value, updatedAt.value,
                      deletedAt.value))
      else None
  }

  lemma {:induction false} ModelKeys(c: Codec, m: Model)
    ensures ModelToDict(c, m).fields.Keys == MODEL_KEYS
  {
  }

  lemma {:induction false} ModelBack(c: Codec, m: Model)
    requires Lawful(c) && SortStrings(m.aliases) == m.aliases
    ensures ModelFromDict(c, ModelToDict(c, m))
         == if AwareTimes(m.createdAt, m.updatedAt, m.deletedAt) then Some(m) else None
  {
    StringsBack(m.aliases);
    TimesBack(c, m.createdAt, m.updatedAt, m.deletedAt);
    ModelKeys(c, m);
  }

  // ---------------------------------------------------------------------- candidate

  function CandidateToDict(c: Codec, m: Candidate): Json {
    JObj(map[
      Id := JStr(m.id), LogicalModelId := JStr(m.logicalModelId), ProviderConnectionId := JStr(m.providerConnectionId),
      UpstreamModelId := JStr(m.upstreamModelId), Status := JStr(m.status), Priority := JInt(m.priority),
      Weight := JInt(m.weight),
      ContextWindowTokens := JInt(m.contextWindowTokens), MaxOutputTokens := JInt(m.maxOutputTokens),
      InputModalities := Strings(m.inputModalities), OutputModalities := Strings(m.outputModalities),
      ToolModes := Strings(m.toolModes), SchemaSupport := JStr(m.schemaSupport),
      StreamingSupport := JBool(m.streamingSupport), EmbeddingsSupport := JBool(m.embeddingsSupport),
      RetentionClass := JStr(m.retentionClass), Regions := Strings(m.regions), Pricing := JObj(m.pricing),
      NativeFeatures := Strings(m.nativeFeatures), UnsupportedParameters := Strings(m.unsupportedParameters),
      CreatedAt := JStr(c.isoformat(m.createdAt)), UpdatedAt := JStr(c.isoformat(m.updatedAt)),
      DeletedAt := OptionalTime(c, m.deletedAt)])
  }

  const CANDIDATE_KEYS := {
    Id, LogicalModelId, ProviderConnectionId, UpstreamModelId, Status, Priority, Weight, ContextWindowTokens,
    MaxOutputTokens, InputModalities, OutputModalities, ToolModes, SchemaSupport, StreamingSupport,
    EmbeddingsSupport, RetentionClass, Regions,
    Pricing, NativeFeatures, UnsupportedParameters, CreatedAt, UpdatedAt, DeletedAt}

  /** The fields have the types that `_candidate_from_dict` requires. */
  predicate CandidateTyped(f: map<Key, Json>)
    requires f.Keys == CANDIDATE_KEYS
  {
    && f[Id].JStr? && f[LogicalModelId].JStr? && f[ProviderConnectionId].JStr? && f[UpstreamModelId].JStr?
    && f[Status].JStr?
    && f[Priority].JInt? && f[Weight].JInt? && f[ContextWindowTokens].JInt? && f[MaxOutputTokens].JInt?
    && AllStrings(f[InputModalities]) && AllStrings(f[OutputModalities]) && AllStrings(f[ToolModes])
    && f[SchemaSupport].JStr?
    && f[StreamingSupport].JBool? && f[EmbeddingsSupport].JBool? && f[RetentionClass].JStr? && AllStrings(f[Regions])
    && f[Pricing].JObj? && AllStrings(f[NativeFeatures]) && AllStrings(f[UnsupportedParameters])
  }

  function CandidateFromDict(c: Codec, j: Json): Option<Candidate> {
    if !j.JObj? || j.fields.Keys != CANDIDATE_KEYS || !CandidateTyped(j.fields) then None else
      var f := j.fields;
      var createdAt, updatedAt, deletedAt := ReadTime(c, f[CreatedAt]), ReadTime(c, f[UpdatedAt]),
          ReadOptionalTime(c, f[DeletedAt]);
      if createdAt.None? || updatedAt.None? || deletedAt.None? then None else
        Some(Candidate(
          f[Id].s, f[LogicalModelId].s, f[ProviderConnectionId].s, f[UpstreamModelId].s, f[Status].s,
          f[Priority].n, f[Weight].n, f[ContextWindowTokens].n, f[MaxOutputTokens].n,
          ReadStrings(f[InputModalities]), ReadStrings(f[OutputModalities]), ReadStrings(f[ToolModes]),
          f[SchemaSupport].s,
          f[StreamingSupport].b, f[EmbeddingsSupport].b, f[RetentionClass].s, ReadStrings(f[Regions]),
          f[Pricing].fields, ReadStrings(f[NativeFeatures]), ReadStrings(f[UnsupportedParameters]),
          createdAt.value, updatedAt.value, deletedAt.value))
  }

  lemma {:induction false} CandidateKeys(c: Codec, m: Candidate)
    ensures CandidateToDict(c, m).fields.Keys == CANDIDATE_KEYS
  {
  }

  predicate Holds(f: map<Key, Json>, k: Key, j: Json) { k in f && f[k] == j }

  ghost predicate CandidateIds(f: map<Key, Json>, m: Candidate) {
    && Holds(f, Id, JStr(m.id)) && Holds(f, LogicalModelId, JStr(m.logicalModelId))
    && Holds(f, ProviderConnectionId, JStr(m.providerConnectionId))
    && Holds(f, UpstreamModelId, JStr(m.upstreamModelId))
  }

  ghost predicate CandidateFeatures(f: map<Key, Json>, m: Candidate) {
    && Holds(f, Status, JStr(m.status)) && Holds(f, SchemaSupport, JStr(m.schemaSupport))
    && Holds(f, RetentionClass, JStr(m.retentionClass)) && Holds(f, Pricing, JObj(m.pricing))
  }

  ghost predicate CandidateValues(f: map<Key, Json>, m: Candidate) {
    && Holds(f, Priority, JInt(m.priority)) && Holds(f, Weight, JInt(m.weight))
    && Holds(f, ContextWindowTokens, JInt(m.contextWindowTokens)) && Holds(f, MaxOutputTokens, JInt(m.maxOutputTokens))
    && Holds(f, StreamingSupport, JBool(m.streamingSupport)) && Holds(f, EmbeddingsSupport, JBool(m.embeddingsSupport))
  }

  ghost predicate CandidateLists(f: map<Key, Json>, m: Candidate) {
    && Holds(f, InputModalities, Strings(m.inputModalities)) && Holds(f, OutputModalities, Strings(m.outputModalities))
    && Holds(f, ToolModes, Strings(m.toolModes)) && Holds(f, Regions, Strings(m.regions))
    && Holds(f, NativeFeatures, Strings(m.nativeFeatures))
    && Holds(f, UnsupportedParameters, Strings(m.unsupportedParameters))
  }

  ghost predicate CandidateTimes(c: Codec, f: map<Key, Json>, m: Candidate) {
    && Holds(f, CreatedAt, JStr(c.isoformat(m.createdAt))) && Holds(f, UpdatedAt, JStr(c.isoformat(m.updatedAt)))
    && Holds(f, DeletedAt, OptionalTime(c, m.deletedAt))
  }

  lemma {:induction false} DictIds(c: Codec, m: Candidate)
    ensures CandidateIds(CandidateToDict(c, m).fields, m)
  {
  }

  lemma {:induction false} DictFeatures(c: Codec, m: Candidate)
    ensures CandidateFeatures(CandidateToDict(c, m).fields, m)
  {
  }

  lemma {:induction false} DictValues(c: Codec, m: Candidate)
    ensures CandidateValues(CandidateToDict(c, m).fields, m)
  {
  }

  lemma {:induction false} DictLists(c: Codec, m: Candidate)
    ensures CandidateLists(CandidateToDict(c, m).fields, m)
  {
  }

  lemma {:induction false} DictTimes(c: Codec, m: Candidate)
    ensures CandidateTimes(c, CandidateToDict(c, m).fields, m)
  {
  }

  lemma {:induction false} CandidateRead(c: Codec, f: map<Key, Json>, m: Candidate)
    requires Lawful(c) && f.Keys == CANDIDATE_KEYS
    requires CandidateIds(f, m) && CandidateFeatures(f, m) && CandidateValues(f, m) && CandidateLists(f, m)
    requires CandidateTimes(c, f, m)
    ensures CandidateFromDict(c, JObj(f)) == if AwareTimes(m.createdAt, m.updatedAt, m.deletedAt) then Some(m) else None
  {
    StringsBack(m.inputModalities);
    StringsBack(m.outputModalities);
    StringsBack(m.toolModes);
    StringsBack(m.regions);
    StringsBack(m.nativeFeatures);
    StringsBack(m.unsupportedParameters);
    TimesBack(c, m.createdAt, m.updatedAt, m.deletedAt);
    assert CandidateTyped(f);
  }

  lemma {:induction false} CandidateBack(c: Codec, m: Candidate)
    requires Lawful(c)
    ensures CandidateFromDict(c, CandidateToDict(c, m))
         == if AwareTimes(m.createdAt, m.updatedAt, m.deletedAt) then Some(m) else None
  {
    CandidateKeys(c, m);
    DictIds(c, m);
    DictFeatures(c, m);
    DictValues(c, m);
    DictLists(c, m);
    DictTimes(c, m);
    CandidateRead(c, CandidateToDict(c, m).fields, m);
  }
}
