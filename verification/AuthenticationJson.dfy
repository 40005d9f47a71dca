/** The JSON tree that mixapi/auth_cache.py keeps of a cached authentication, and how it
    is read back.  `AuthCache` keeps the record itself in its entries: by the round trip
    here that is what reading an entry of its own gives. */
module AuthenticationJson {
  import opened Prelude
  import opened SnapshotJson
  import AuthCache

  type Authentication = AuthCache.Authentication

  /** Decimals and timestamps as text. */
  datatype Texts = Texts(
    decimal: int -> string, readDecimal: string -> Option<int>,
    isoformat: int -> string, fromisoformat: string -> Option<int>)

  predicate AmountBack(x: Texts, amount: int) { x.readDecimal(x.decimal(amount)) == Some(amount) }

  predicate TimeBack(x: Texts, t: int) { x.fromisoformat(x.isoformat(t)) == Some(t) }

  /** Both texts are read back as what they were written from. */
  ghost predicate Faithful(x: Texts) {
    (forall amount :: AmountBack(x, amount)) && forall t :: TimeBack(x, t)
  }

  const AUTHENTICATION_KEYS := {Version, TenantId, ProjectId, ApiKeyId, Scopes, ModelAllowlist, BudgetLimit,
                                RoutingObjective, ExpiresAt}

  function Optional(text: Option<string>): Json { if text.Some? then JStr(text.value) else JNull }

  function AmountText(x: Texts, amount: Option<int>): Json {
    if amount.Some? then JStr(x.decimal(amount.value)) else JNull
  }

  function TimeText(x: Texts, t: Option<int>): Json { if t.Some? then JStr(x.isoformat(t.value)) else JNull }

  /** `_encode_authentication`. */
  function Encode(x: Texts, a: Authentication): Json {
    JObj(map[
      Version := JInt(1), TenantId := JStr(a.tenant), ProjectId := JStr(a.project), ApiKeyId := JStr(a.keyId),
      Scopes := Strings(a.scopes),
      ModelAllowlist := if a.allowlist.Some? then Strings(a.allowlist.value) else JNull,
      BudgetLimit := AmountText(x, a.budget), RoutingObjective := Optional(a.objective),
      ExpiresAt := TimeText(x, a.expiresAt)])
  }

  predicate TextOrNull(j: Json) { j.JStr? || j.JNull? }

  function ReadText(j: Json): Option<string> { if j.JStr? then Some(j.s) else None }

  /** A present text that cannot be read is an error; an absent one is no value. */
  function ReadNumber(j: Json, read: string -> Option<int>): Option<Option<int>> {
    match j
    case JNull => Some(None)
    case JStr(text) => if read(text).Some? then Some(read(text)) else None
    case _ => None
  }

  function ReadAllowlist(j: Json): Option<Option<seq<string>>> {
    if j.JNull? then Some(None) else if AllStrings(j) then Some(Some(ReadStrings(j))) else None
  }

  /** `_decode_authentication`; None is one of the exceptions after which `resolve` deletes
      the entry.  Keys that it does not read may be present. */
  function Decode(x: Texts, j: Json): Option<Authentication> {
    if !j.JObj? || !(AUTHENTICATION_KEYS <= j.fields.Keys) || j.fields[Version] != JInt(1) then None else
      var f := j.fields;
      var allowlist := ReadAllowlist(f[ModelAllowlist]);
      var budget, expiresAt := ReadNumber(f[BudgetLimit], x.readDecimal), ReadNumber(f[ExpiresAt], x.fromisoformat);
      if && f[TenantId].JStr? && f[ProjectId].JStr? && f[ApiKeyId].JStr? && AllStrings(f[Scopes])
         && allowlist.Some? && budget.Some? && TextOrNull(f[RoutingObjective]) && expiresAt.Some?
      then Some(AuthCache.Authentication(
        f[TenantId].s, f[ProjectId].s, f[ApiKeyId].s, ReadStrings(f[Scopes]), allowlist.value,
        budget.value, ReadText(f[RoutingObjective]), expiresAt.value))
      else None
  }

  ghost predicate Holds(x: Texts, f: map<Key, Json>, a: Authentication) {
    && AUTHENTICATION_KEYS <= f.Keys
    && f[Version] == JInt(1) && f[TenantId] == JStr(a.tenant) && f[ProjectId] == JStr(a.project)
    && f[ApiKeyId] == JStr(a.keyId) && f[Scopes] == Strings(a.scopes)
    && f[ModelAllowlist] == (if a.allowlist.Some? then Strings(a.allowlist.value) else JNull)
    && f[BudgetLimit] == AmountText(x, a.budget) && f[RoutingObjective] == Optional(a.objective)
    && f[ExpiresAt] == TimeText(x, a.expiresAt)
  }

  lemma {:induction false} AllowlistBack(allowlist: Option<seq<string>>)
    ensures ReadAllowlist(if allowlist.Some? then Strings(allowlist.value) else JNull) == Some(allowlist)
  {
    if allowlist.Some? { StringsBack(allowlist.value); }
  }

  lemma {:induction false} NumbersBack(x: Texts, amount: Option<int>, t: Option<int>)
    requires Faithful(x)
    ensures ReadNumber(AmountText(x, amount), x.readDecimal) == Some(amount)
    ensures ReadNumber(TimeText(x, t), x.fromisoformat) == Some(t)
  {
    if amount.Some? { assert AmountBack(x, amount.value); }
    if t.Some? { assert TimeBack(x, t.value); }
  }

  lemma {:induction false} HeldIsRead(x: Texts, f: map<Key, Json>, a: Authentication)
    requires Faithful(x) && Holds(x, f, a)
    ensures Decode(x, JObj(f)) == Some(a)
  {
    StringsBack(a.scopes);
    AllowlistBack(a.allowlist);
    NumbersBack(x, a.budget, a.expiresAt);
    assert ReadText(f[RoutingObjective]) == a.objective;
  }

  /** The round trip: what was encoded is read back whole, an absent allowlist apart from an
      empty one, whatever keys of other names a later version of the program adds. */
  lemma {:induction false} DecodeUndoesEncode(x: Texts, a: Authentication, others: map<Key, Json>)
    requires Faithful(x) && others.Keys !! AUTHENTICATION_KEYS
    ensures Decode(x, JObj(Encode(x, a).fields + others)) == Some(a)
  {
    var own := Encode(x, a).fields;
    assert own.Keys == AUTHENTICATION_KEYS;
    var f := own + others;
    assert forall key :: key in AUTHENTICATION_KEYS ==> key in f && f[key] == own[key];
    HeldIsRead(x, f, a);
  }

  /** No two authentications have the same entry. */
  lemma {:induction false} EntriesDiffer(x: Texts, a: Authentication, b: Authentication)
    requires Faithful(x)
    ensures Encode(x, a) == Encode(x, b) <==> a == b
  {
    DecodeUndoesEncode(x, a, map[]);
    DecodeUndoesEncode(x, b, map[]);
    assert Encode(x, a).fields + map[] == Encode(x, a).fields && Encode(x, b).fields + map[] == Encode(x, b).fields;
  }
}
