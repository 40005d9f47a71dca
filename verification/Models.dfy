/** mixapi/models.py: one way of serving a logical model. */
module Models {

  datatype SchemaSupport = NoSchema | JsonMode | BestEffortSchema | StrictJsonSchema

  /** `""` stands for an absent connection or protocol and 0 for an absent limit: the
      program tests all of these for truth.  Prices are per million tokens. */
  datatype ProviderModel = ProviderModel(
    id: string,
    provider: string,
    providerModelId: string,
    status: string,
    maxOutputTokens: nat,
    inputModalities: seq<string>,
    outputModalities: seq<string>,
    toolModes: seq<string>,
    schemaSupport: SchemaSupport,
    embeddings: bool,
    connection: string,
    protocol: string,
    priority: int,
    weight: int,
    latencyMs: real,
    reliability: real,
    concurrencyLimit: nat,
    requestQuota: nat,
    inputPrice: real,
    outputPrice: real)
}
