/** Usage pages: the keyset query of mixapi/repositories/usage.py, the cursors of
    mixapi/usage.py and the endpoint of mixapi/app.py that joins them.  Timestamps are
    integers of microseconds, the precision that is stored and written. */
module UsagePages {
  import opened Prelude
  import opened Base64Url

  datatype Event = Event(id: nat, createdAt: int, tenant: string)

  predicate Before(t: int, i: nat, e: Event) { t < e.createdAt || (t == e.createdAt && i < e.id) }

  /** A table has no order of its own; its rows are held here in the order of the index
      (created_at, id), which every query asks for.  Ids are positive. */
  ghost predicate Indexed(table: seq<Event>) {
    && (forall i, j :: 0 <= i < j < |table| ==> Before(table[i].createdAt, table[i].id, table[j]))
    && forall i :: 0 <= i < |table| ==> table[i].id > 0
  }

  datatype Query = Query(
    tenant: string, start: Option<int>, end: Option<int>, limit: Option<nat>, afterId: nat, afterCreatedAt: Option<int>)

  datatype Page = Page(events: seq<Event>, hasMore: bool)

  predicate InWindow(e: Event, tenant: string, start: Option<int>, end: Option<int>) {
    && e.tenant == tenant
    && (start.Some? ==> e.createdAt >= start.value)
    && (end.Some? ==> e.createdAt <= end.value)
  }

  predicate IsAfter(e: Event, afterId: nat, afterCreatedAt: Option<int>) {
    if afterCreatedAt.Some? then Before(afterCreatedAt.value, afterId, e) else e.id > afterId
  }

  function Matches(q: Query): Event -> bool {
    (e: Event) => InWindow(e, q.tenant, q.start, q.end) && IsAfter(e, q.afterId, q.afterCreatedAt)
  }

  function First(rows: seq<Event>, limit: Option<nat>): Page {
    if limit.Some? && |rows| > limit.value then Page(rows[..limit.value], true) else Page(rows, false)
  }

  /** All matching rows in order, cut at the limit. */
  function Select(table: seq<Event>, q: Query): Page { First(Filter(table, Matches(q)), q.limit) }

  // ------------------------------------------------------------------ the statement built

  datatype Clause =
    | OfTenant(tenant: string)
    | Since(start: int)
    | Until(end: int)
    | AfterKey(createdAt: int, id: nat)
    | AfterId(id: nat)

  predicate Satisfies(e: Event, c: Clause) {
    match c
    case OfTenant(tenant) => e.tenant == tenant
    case Since(start) => e.createdAt >= start
    case Until(end) => e.createdAt <= end
    case AfterKey(createdAt, id) => Before(createdAt, id, e)
    case AfterId(id) => e.id > id
  }

  predicate Holds(e: Event, clauses: seq<Clause>)
    decreases |clauses|
  {
    clauses == [] || (Holds(e, clauses[..|clauses| - 1]) && Satisfies(e, clauses[|clauses| - 1]))
  }

  function All(clauses: seq<Clause>): Event -> bool { (e: Event) => Holds(e, clauses) }

  /** `SELECT … WHERE … ORDER BY created_at, id LIMIT …`. */
  function Execute(table: seq<Event>, clauses: seq<Clause>, limit: Option<nat>): seq<Event> {
    var rows := Filter(table, All(clauses));
    if limit.Some? && limit.value < |rows| then rows[..limit.value] else rows
  }

  lemma {:induction false} FilterSame(table: seq<Event>, p: Event -> bool, q: Event -> bool)
    requires forall k :: 0 <= k < |table| ==> p(table[k]) == q(table[k])
    ensures Filter(table, p) == Filter(table, q)
    decreases |table|
  {
    if table != [] { FilterSame(table[..|table| - 1], p, q); }
  }

  lemma {:induction false} AddClause(clauses: seq<Clause>, c: Clause)
    ensures forall e :: Holds(e, clauses + [c]) <==> Holds(e, clauses) && Satisfies(e, c)
  {
    assert (clauses + [c])[..|clauses|] == clauses;
  }

  method WindowClauses(q: Query) returns (clauses: seq<Clause>)
    ensures forall e :: Holds(e, clauses) <==> InWindow(e, q.tenant, q.start, q.end)
  {
    AddClause([], OfTenant(q.tenant));
    clauses := [] + [OfTenant(q.tenant)];
    if q.start.Some? {
      AddClause(clauses, Since(q.start.value));
      clauses := clauses + [Since(q.start.value)];
    }
    if q.end.Some? {
      AddClause(clauses, Until(q.end.value));
      clauses := clauses + [Until(q.end.value)];
    }
  }

  /** `query`: one row more than the limit is fetched to see whether there is one. */
  method RunQuery(table: seq<Event>, q: Query) returns (page: Page)
    requires Indexed(table)
    ensures page == Select(table, q)
  {
    var clauses := WindowClauses(q);
    if q.afterCreatedAt.Some? {
      AddClause(clauses, AfterKey(q.afterCreatedAt.value, q.afterId));
      clauses := clauses + [AfterKey(q.afterCreatedAt.value, q.afterId)];
    } else if q.afterId > 0 {
      AddClause(clauses, AfterId(q.afterId));
      clauses := clauses + [AfterId(q.afterId)];
    }
    var fetchLimit := if q.limit.Some? then Some(q.limit.value + 1) else None;
    var rows := Execute(table, clauses, fetchLimit);
    FilterSame(table, All(clauses), Matches(q));
    var hasMore := q.limit.Some? && |rows| > q.limit.value;
    if hasMore { rows := rows[..q.limit.value]; }
    page := Page(rows, hasMore);
  }

  // ---------------------------------------------------------------------------- cursors

  datatype Payload = Payload(
    after: int, afterCreatedAt: Option<int>, end: Option<int>, start: Option<int>, tenant: string, v: int)

  /** `json.dumps` to bytes and `json.loads` of such a payload. */
  datatype CursorCodec = CursorCodec(dumps: Payload -> seq<Byte>, loads: seq<Byte> -> Option<Payload>)

  ghost predicate Lawful(codec: CursorCodec) { forall p :: codec.loads(codec.dumps(p)) == Some(p) }

  function EncodeCursor(codec: CursorCodec, q: Query, afterId: nat, afterCreatedAt: Option<int>): string {
    Unpadded(Encode(codec.dumps(Payload(afterId, afterCreatedAt, q.end, q.start, q.tenant, 1))))
  }

  /** The position of a cursor, or `None` for `invalid_usage_cursor`. */
  function DecodeCursor(codec: CursorCodec, cursor: string, tenant: string, start: Option<int>, end: Option<int>)
    : Option<(Option<int>, nat)>
  {
    var bytes := Decode(Padded(cursor));
    var payload := if bytes.Some? then codec.loads(bytes.value) else None;
    if payload.None? then None else
      var p := payload.value;
      if p.v == 1 && p.tenant == tenant && p.start == start && p.end == end && p.after > 0 && p.afterCreatedAt.Some?
      then Some((p.afterCreatedAt, p.after)) else None
  }

  /** A cursor is accepted exactly for the tenant and the time window it was made for, and
      then it gives back the position it was made from. */
  lemma {:induction false} CursorIsBound(
      codec: CursorCodec, q: Query, afterId: nat, at: Option<int>, tenant: string, start: Option<int>, end: Option<int>)
    requires Lawful(codec)
    ensures DecodeCursor(codec, EncodeCursor(codec, q, afterId, at), tenant, start, end)
         == if tenant == q.tenant && start == q.start && end == q.end && afterId > 0 && at.Some?
            then Some((at, afterId)) else None
  {
    RoundTrip(codec.dumps(Payload(afterId, at, q.end, q.start, q.tenant, 1)));
  }

  // ------------------------------------------------------------------------ the endpoint

  datatype Params = Params(tenant: string, start: Option<int>, end: Option<int>, limit: int)

  datatype Reply = Invalid(code: string) | Listing(events: seq<Event>, hasMore: bool, nextCursor: Option<string>)

  /** `build_usage_query`. */
  function BuildQuery(codec: CursorCodec, w: Params, cursor: Option<string>): (Option<Query>, string) {
    if w.start.Some? && w.end.Some? && w.start.value > w.end.value then (None, "invalid_usage_time_range")
    else if w.limit < 1 || w.limit > 100 then (None, "invalid_usage_limit")
    else if cursor.None? then (Some(Query(w.tenant, w.start, w.end, Some(w.limit), 0, None)), "")
    else
      var at := DecodeCursor(codec, cursor.value, w.tenant, w.start, w.end);
      if at.None? then (None, "invalid_usage_cursor")
      else (Some(Query(w.tenant, w.start, w.end, Some(w.limit), at.value.1, at.value.0)), "")
  }

  function Respond(codec: CursorCodec, q: Query, page: Page): Reply {
    if page.hasMore && page.events != [] then
      var last := page.events[|page.events| - 1];
      Listing(page.events, true, Some(EncodeCursor(codec, q, last.id, Some(last.createdAt))))
    else Listing(page.events, page.hasMore, None)
  }

  /** `GET /v1/usage`. */
  function GetUsage(codec: CursorCodec, table: seq<Event>, w: Params, cursor: Option<string>): Reply {
    var built := BuildQuery(codec, w, cursor);
    if built.0.None? then Invalid(built.1) else Respond(codec, built.0.value, Select(table, built.0.value))
  }

  /** What a client that follows the cursors has received. */
  datatype Walk = Walk(events: seq<Event>, cursor: Option<string>, done: bool, failed: bool)

  function Receive(walk: Walk, reply: Reply): Walk {
    match reply
    case Invalid(_) => walk.(failed := true)
    case Listing(events, _, next) => Walk(walk.events + events, next, next.None?, false)
  }

  function Request(codec: CursorCodec, table: seq<Event>, w: Params, walk: Walk): Walk {
    if walk.done || walk.failed then walk else Receive(walk, GetUsage(codec, table, w, walk.cursor))
  }

  /** After `n` requests, the first without a cursor. */
  function Follow(codec: CursorCodec, table: seq<Event>, w: Params, n: nat): Walk {
    Iterate(Requesting(codec, table, w), Walk([], None, false, false), n)
  }

  function Requesting(codec: CursorCodec, table: seq<Event>, w: Params): Walk -> Walk {
    (walk: Walk) => Request(codec, table, w, walk)
  }

  function WindowOf(w: Params): Event -> bool { (e: Event) => InWindow(e, w.tenant, w.start, w.end) }

  /** The events that the parameters ask for, all of them, in order. */
  function Wanted(table: seq<Event>, w: Params): seq<Event> {
    Filter(table, WindowOf(w))
  }

  predicate ValidParams(w: Params) {
    1 <= w.limit <= 100 && (w.start.Some? && w.end.Some? ==> w.start.value <= w.end.value)
  }

  lemma {:induction false} FilterIndexed(table: seq<Event>, p: Event -> bool)
    requires Indexed(table)
    ensures Indexed(Filter(table, p))
    decreases |table|
  {
    if table != [] {
      var init, last := table[..|table| - 1], table[|table| - 1];
      FilterIndexed(init, p);
      FilterMembers(init, p);
      forall k | 0 <= k < |Filter(init, p)| ensures Before(Filter(init, p)[k].createdAt, Filter(init, p)[k].id, last) {
        assert Filter(init, p)[k] in Filter(init, p);
        assert Filter(init, p)[k] in init;
      }
    }
  }

  lemma {:induction false} FilterTwice(table: seq<Event>, p: Event -> bool, r: Event -> bool, both: Event -> bool)
    requires forall k :: 0 <= k < |table| ==> both(table[k]) == (p(table[k]) && r(table[k]))
    ensures Filter(table, both) == Filter(Filter(table, p), r)
    decreases |table|
  {
    if table != [] {
      var init, last := table[..|table| - 1], table[|table| - 1];
      FilterTwice(init, p, r, both);
      FilterLast(table, p);
      FilterLast(table, both);
      if p(last) { FilterLast(Filter(table, p), r); }
    }
  }

  lemma {:induction false} FilterSuffix(rows: seq<Event>, k: nat, p: Event -> bool)
    requires k <= |rows|
    requires forall i :: 0 <= i < |rows| ==> p(rows[i]) == (i >= k)
    ensures Filter(rows, p) == rows[k..]
    decreases |rows|
  {
    if k == |rows| {
      FilterNone(rows, p);
    } else {
      FilterSuffix(rows[..|rows| - 1], k, p);
      FilterLast(rows, p);
    }
  }

  function AfterOf(q: Query): Event -> bool { (e: Event) => IsAfter(e, q.afterId, q.afterCreatedAt) }

  /** In an indexed list, the rows after the position of row `k - 1` are those from `k` on. */
  lemma {:induction false} AfterPosition(rows: seq<Event>, k: nat, q: Query)
    requires Indexed(rows) && k <= |rows|
    requires if k == 0 then q.afterCreatedAt.None? && q.afterId == 0
             else q.afterCreatedAt == Some(rows[k - 1].createdAt) && q.afterId == rows[k - 1].id
    ensures forall i :: 0 <= i < |rows| ==> AfterOf(q)(rows[i]) == (i >= k)
  {
    forall i | 0 <= i < |rows| ensures AfterOf(q)(rows[i]) == (i >= k) {
      if 0 < k && i < k - 1 { assert Before(rows[i].createdAt, rows[i].id, rows[k - 1]); }
    }
  }

  /** The wanted rows after position `k`: all of them from `k` on. */
  lemma {:induction false} RowsAfter(table: seq<Event>, w: Params, k: nat, q: Query)
    requires Indexed(table) && q.tenant == w.tenant && q.start == w.start && q.end == w.end
    requires k <= |Wanted(table, w)|
    requires if k == 0 then q.afterCreatedAt.None? && q.afterId == 0
             else q.afterCreatedAt == Some(Wanted(table, w)[k - 1].createdAt) && q.afterId == Wanted(table, w)[k - 1].id
    ensures Filter(table, Matches(q)) == Wanted(table, w)[k..]
  {
    FilterTwice(table, WindowOf(w), AfterOf(q), Matches(q));
    FilterIndexed(table, WindowOf(w));
    AfterPosition(Wanted(table, w), k, q);
    FilterSuffix(Wanted(table, w), k, AfterOf(q));
  }

  function CursorAt(codec: CursorCodec, table: seq<Event>, w: Params, k: nat): Option<string>
    requires 0 < k <= |Wanted(table, w)|
  {
    var last := Wanted(table, w)[k - 1];
    Some(EncodeCursor(codec, Query(w.tenant, w.start, w.end, None, 0, None), last.id, Some(last.createdAt)))
  }

  /** The query for the rows from position `k` on. */
  function QueryAt(table: seq<Event>, w: Params, k: nat): Query
    requires k <= |Wanted(table, w)| && ValidParams(w)
  {
    if k == 0 then Query(w.tenant, w.start, w.end, Some(w.limit), 0, None)
    else Query(w.tenant, w.start, w.end, Some(w.limit), Wanted(table, w)[k - 1].id,
               Some(Wanted(table, w)[k - 1].createdAt))
  }

  lemma {:induction false} QueryFrom(codec: CursorCodec, table: seq<Event>, w: Params, k: nat, cursor: Option<string>)
    requires Lawful(codec) && Indexed(table) && ValidParams(w) && k <= |Wanted(table, w)|
    requires cursor == if k == 0 then None else CursorAt(codec, table, w, k)
    ensures BuildQuery(codec, w, cursor) == (Some(QueryAt(table, w, k)), "")
  {
    if k > 0 {
      var last := Wanted(table, w)[k - 1];
      FilterIndexed(table, WindowOf(w));
      CursorIsBound(codec, Query(w.tenant, w.start, w.end, None, 0, None), last.id, Some(last.createdAt), w.tenant,
                    w.start, w.end);
    }
  }

  lemma {:induction false} FirstFrom(rows: seq<Event>, k: nat, limit: nat)
    requires k <= |rows|
    ensures var end := Min(k + limit, |rows|); First(rows[k..], Some(limit)) == Page(rows[k..end], end < |rows|)
  {
    if k + limit < |rows| { assert rows[k..][..limit] == rows[k..k + limit]; }
  }

  lemma {:induction false} SelectFrom(table: seq<Event>, w: Params, k: nat)
    requires Indexed(table) && ValidParams(w) && k <= |Wanted(table, w)|
    ensures var wanted := Wanted(table, w);
            var end := Min(k + w.limit, |wanted|);
      Select(table, QueryAt(table, w, k)) == Page(wanted[k..end], end < |wanted|)
  {
    RowsAfter(table, w, k, QueryAt(table, w, k));
    FirstFrom(Wanted(table, w), k, w.limit);
  }

  lemma {:induction false} RespondFrom(codec: CursorCodec, table: seq<Event>, w: Params, k: nat, end: nat)
    requires ValidParams(w) && k <= end <= |Wanted(table, w)| && (end < |Wanted(table, w)| ==> k < end)
    ensures var wanted := Wanted(table, w);
      Respond(codec, QueryAt(table, w, k), Page(wanted[k..end], end < |wanted|))
        == Listing(wanted[k..end], end < |wanted|, if end < |wanted| then CursorAt(codec, table, w, end) else None)
  {
  }

  /** One request from position `k`. */
  lemma {:induction false} PageFrom(codec: CursorCodec, table: seq<Event>, w: Params, k: nat, cursor: Option<string>)
    requires Lawful(codec) && Indexed(table) && ValidParams(w) && k <= |Wanted(table, w)|
    requires cursor == if k == 0 then None else CursorAt(codec, table, w, k)
    ensures var wanted := Wanted(table, w);
            var end := Min(k + w.limit, |wanted|);
      GetUsage(codec, table, w, cursor)
        == Listing(wanted[k..end], end < |wanted|, if end < |wanted| then CursorAt(codec, table, w, end) else None)
  {
    QueryFrom(codec, table, w, k, cursor);
    SelectFrom(table, w, k);
    RespondFrom(codec, table, w, k, Min(k + w.limit, |Wanted(table, w)|));
  }

  /** A client that holds the first `k` wanted events. */
  function Holding(codec: CursorCodec, table: seq<Event>, w: Params, k: nat, done: bool): Walk
    requires k <= |Wanted(table, w)|
  {
    Walk(Wanted(table, w)[..k], if 0 < k < |Wanted(table, w)| then CursorAt(codec, table, w, k) else None, done, false)
  }

  lemma {:induction false} ReceiveAdvances(codec: CursorCodec, table: seq<Event>, w: Params, k: nat, end: nat)
    requires k <= end <= |Wanted(table, w)| && (end < |Wanted(table, w)| ==> 0 < end)
    ensures var wanted := Wanted(table, w);
            var reply := Listing(wanted[k..end], end < |wanted|,
                                 if end < |wanted| then CursorAt(codec, table, w, end) else None);
      Receive(Holding(codec, table, w, k, false), reply) == Holding(codec, table, w, end, end == |wanted|)
  {
    assert Wanted(table, w)[..k] + Wanted(table, w)[k..end] == Wanted(table, w)[..end];
  }

  lemma {:induction false} RequestAdvances(codec: CursorCodec, table: seq<Event>, w: Params, k: nat)
    requires Lawful(codec) && Indexed(table) && ValidParams(w) && (k == 0 || k < |Wanted(table, w)|)
    ensures var end := Min(k + w.limit, |Wanted(table, w)|);
      Request(codec, table, w, Holding(codec, table, w, k, false))
        == Holding(codec, table, w, end, end == |Wanted(table, w)|)
  {
    PageFrom(codec, table, w, k, Holding(codec, table, w, k, false).cursor);
    ReceiveAdvances(codec, table, w, k, Min(k + w.limit, |Wanted(table, w)|));
  }

  /** A client that holds the first `rows` wanted events, or all, after `n` requests. */
  function Progress(codec: CursorCodec, table: seq<Event>, w: Params, n: nat, rows: nat): Walk {
    var size := |Wanted(table, w)|;
    Holding(codec, table, w, Min(rows, size), n > 0 && rows >= size)
  }

  lemma {:induction false} ProgressStarts(codec: CursorCodec, table: seq<Event>, w: Params)
    ensures Walk([], None, false, false) == Progress(codec, table, w, 0, 0)
  {
    assert Wanted(table, w)[..0] == [];
  }

  lemma {:induction false} RequestWhenDone(codec: CursorCodec, table: seq<Event>, w: Params, walk: Walk)
    requires walk.done
    ensures Request(codec, table, w, walk) == walk
  {
  }

  /** One more request covers `limit` more rows. */
  lemma {:induction false} ProgressMore(codec: CursorCodec, table: seq<Event>, w: Params, n: nat, rows: nat, more: nat)
    requires Lawful(codec) && Indexed(table) && ValidParams(w) && n > 0 && more == rows + w.limit
    requires n == 1 ==> rows == 0
    ensures Request(codec, table, w, Progress(codec, table, w, n - 1, rows)) == Progress(codec, table, w, n, more)
  {
    var size := |Wanted(table, w)|;
    var before, after := Progress(codec, table, w, n - 1, rows), Progress(codec, table, w, n, more);
    if n == 1 || rows < size {
      assert before == Holding(codec, table, w, rows, false);
      RequestAdvances(codec, table, w, rows);
    } else {
      RequestWhenDone(codec, table, w, before);
      assert after == before;
    }
  }

  /** The rows that `n` requests ask for: `n * limit`. */
  function Asked(w: Params, n: nat): (rows: nat)
    requires ValidParams(w)
    ensures rows >= n && (n == 0 ==> rows == 0)
  {
    if n == 0 then 0 else Asked(w, n - 1) + w.limit
  }

  function Progressing(codec: CursorCodec, table: seq<Event>, w: Params): nat -> Walk
    requires ValidParams(w)
  {
    (n: nat) => Progress(codec, table, w, n, Asked(w, n))
  }

  lemma {:induction false} AskedIsProduct(w: Params, n: nat)
    requires ValidParams(w)
    ensures Asked(w, n) == n * w.limit
    decreases n
  {
    if n > 0 {
      AskedIsProduct(w, n - 1);
      assert n * w.limit == (n - 1) * w.limit + w.limit;
    }
  }

  /** Pagination is complete: for every table, window and limit, after `n` requests a client
      holds the first `n * limit` wanted events, without gap or duplicate, and is done
      exactly when they cover all of them. */
  lemma {:induction false} FollowingCursors(codec: CursorCodec, table: seq<Event>, w: Params, n: nat)
    requires Lawful(codec) && Indexed(table) && ValidParams(w)
    ensures Follow(codec, table, w, n) == Progress(codec, table, w, n, Asked(w, n))
  {
    var request, progress := Requesting(codec, table, w), Progressing(codec, table, w);
    forall m: nat ensures request(progress(m)) == progress(m + 1) {
      ProgressMore(codec, table, w, m + 1, Asked(w, m), Asked(w, m + 1));
    }
    ProgressStarts(codec, table, w);
    IterateFollows(request, progress, n);
  }

  /** So it ends: enough requests return exactly the wanted events, and all of them. */
  lemma {:induction false} FollowingEnds(codec: CursorCodec, table: seq<Event>, w: Params, n: nat)
    requires Lawful(codec) && Indexed(table) && ValidParams(w)
    requires n > |Wanted(table, w)|
    ensures Follow(codec, table, w, n) == Walk(Wanted(table, w), None, true, false)
  {
    FollowingCursors(codec, table, w, n);
  }

  /** The events a client ends up with: the tenant's events within the bounds given, both
      inclusive, each once and in the order of time and id. */
  lemma {:induction false} WalkHoldsWindow(
      codec: CursorCodec, table: seq<Event>, w: Params, n: nat, e: Event)
    requires Lawful(codec) && Indexed(table) && ValidParams(w) && n > |table|
    ensures var walk := Follow(codec, table, w, n);
      && walk.done && !walk.failed && Indexed(walk.events)
      && (e in walk.events <==>
            && e in table && e.tenant == w.tenant
            && (w.start.None? || w.start.value <= e.createdAt) && (w.end.None? || e.createdAt <= w.end.value))
  {
    FollowingEnds(codec, table, w, n);
    FilterIndexed(table, WindowOf(w));
    FilterMembers(table, WindowOf(w));
  }

  /** Which requests are refused, and why. */
  lemma {:induction false} RefusedIff(codec: CursorCodec, table: seq<Event>, w: Params, cursor: Option<string>)
    ensures var reply := GetUsage(codec, table, w, cursor);
            var backward := w.start.Some? && w.end.Some? && w.end.value < w.start.value;
            var sized := 1 <= w.limit <= 100;
      && (reply == Invalid("invalid_usage_time_range") <==> backward)
      && (reply == Invalid("invalid_usage_limit") <==> !backward && !sized)
      && (reply == Invalid("invalid_usage_cursor") <==>
            !backward && sized && cursor.Some? && DecodeCursor(codec, cursor.value, w.tenant, w.start, w.end).None?)
      && (reply.Invalid? ==>
            reply.code in ["invalid_usage_time_range", "invalid_usage_limit", "invalid_usage_cursor"])
  {
    assert |"invalid_usage_time_range"| == 24 && |"invalid_usage_limit"| == 19 && |"invalid_usage_cursor"| == 20;
  }
}
