/** The circuit breaker of mixapi/runtime/circuits.py: a Redis hash with a time to live
    per provider model.  Times are milliseconds of one clock. */
module Circuits {
  import opened Prelude

  const MIN_TTL_MS := 60000

  /** The hash behind one key; an expired key is absent. */
  datatype Circuit = Circuit(failures: int, openedMs: Option<int>, expiresAt: int)

  function Present(c: Option<Circuit>, now: int): Option<Circuit> {
    if c.Some? && now < c.value.expiresAt then c else None
  }

  /** `_IS_OPEN`. */
  function IsOpen(c: Option<Circuit>, now: int, recovery: int): (Option<Circuit>, bool) {
    var key := Present(c, now);
    if key.None? || key.value.openedMs.None? then (key, false)
    else if now - key.value.openedMs.value >= recovery then (None, false)
    else (key, true)
  }

  function Ttl(recovery: int): int { Max(recovery * 2, MIN_TTL_MS) }

  /** `_FAILURE`. */
  function Failure(c: Option<Circuit>, now: int, threshold: int, recovery: int): Option<Circuit> {
    var key := Present(c, now);
    var failures := (if key.Some? then key.value.failures else 0) + 1;
    var openedMs := if failures >= threshold then Some(now) else if key.Some? then key.value.openedMs else None;
    Some(Circuit(failures, openedMs, now + Ttl(recovery)))
  }

  datatype Kind = Failed | Succeeded | Queried
  datatype Event = Event(kind: Kind, at: int)

  function Step(c: Option<Circuit>, e: Event, threshold: int, recovery: int): Option<Circuit> {
    match e.kind
    case Failed => Failure(c, e.at, threshold, recovery)
    case Succeeded => None
    case Queried => IsOpen(c, e.at, recovery).0
  }

  function Run(history: seq<Event>, threshold: int, recovery: int): Option<Circuit>
    decreases |history|
  {
    if history == [] then None
    else Step(Run(history[..|history| - 1], threshold, recovery), history[|history| - 1], threshold, recovery)
  }

  ghost predicate Ordered(history: seq<Event>) {
    forall i, j :: 0 <= i < j < |history| ==> history[i].at <= history[j].at
  }

  // --------------------------------------------------------- the history, without the key

  /** When the last failure happened. */
  function LastFailure(history: seq<Event>): Option<int>
    decreases |history|
  {
    if history == [] then None
    else if history[|history| - 1].kind == Failed then Some(history[|history| - 1].at)
    else LastFailure(history[..|history| - 1])
  }

  /** Failures since the last reset: a success, a query after recovery while open, or a
      pause before a failure as long as the key's time to live. */
  function Streak(history: seq<Event>, threshold: int, recovery: int): nat
    decreases |history|
  {
    if history == [] then 0 else
      var before, e := history[..|history| - 1], history[|history| - 1];
      var last := LastFailure(before);
      var streak := Streak(before, threshold, recovery);
      match e.kind
      case Succeeded => 0
      case Failed => if last.Some? && e.at - last.value < Ttl(recovery) then streak + 1 else 1
      case Queried => if last.Some? && streak >= threshold && e.at - last.value >= recovery then 0 else streak
  }

  /** Open in terms of the history: the streak reached the threshold, and less than the
      recovery time has passed since its last failure. */
  predicate OpenAt(history: seq<Event>, now: int, threshold: int, recovery: int) {
    var streak, last := Streak(history, threshold, recovery), LastFailure(history);
    streak > 0 && streak >= threshold && last.Some? && now - last.value < recovery
  }

  /** How the key and the history correspond.  A key that is present counts the streak and
      expires with its last failure; one that is absent has no streak left that counts. */
  ghost predicate Corresponds(c: Option<Circuit>, history: seq<Event>, now: int, threshold: int, recovery: int) {
    var streak, last := Streak(history, threshold, recovery), LastFailure(history);
    && (last.None? ==> streak == 0)
    && (c.Some? ==>
          && last.Some? && streak > 0
          && c.value.failures == streak && c.value.expiresAt == last.value + Ttl(recovery)
          && c.value.openedMs == if streak >= threshold then last else None)
    && (c.None? && streak > 0 ==> last.Some? && now >= last.value + Ttl(recovery))
  }

  lemma {:induction false} LastFailureBefore(history: seq<Event>, now: int)
    requires Ordered(history) && (history != [] ==> history[|history| - 1].at <= now)
    ensures LastFailure(history).Some? ==> LastFailure(history).value <= now
  {
    if history != [] && history[|history| - 1].kind != Failed {
      LastFailureBefore(history[..|history| - 1], now);
    }
  }

  lemma {:induction false} StepCorresponds(
      c: Option<Circuit>, history: seq<Event>, e: Event, threshold: int, recovery: int)
    requires recovery >= 1 && Corresponds(c, history, e.at, threshold, recovery)
    requires LastFailure(history).Some? ==> LastFailure(history).value <= e.at
    ensures Corresponds(Step(c, e, threshold, recovery), history + [e], e.at, threshold, recovery)
  {
    var after := history + [e];
    assert after[..|after| - 1] == history && after[|after| - 1] == e;
  }

  lemma {:induction false} CorrespondsLater(
      c: Option<Circuit>, history: seq<Event>, at: int, now: int, threshold: int, recovery: int)
    requires at <= now && Corresponds(c, history, at, threshold, recovery)
    ensures Corresponds(c, history, now, threshold, recovery)
  {
  }

  lemma {:induction false} RunCorresponds(history: seq<Event>, now: int, threshold: int, recovery: int)
    requires recovery >= 1 && Ordered(history) && (history != [] ==> history[|history| - 1].at <= now)
    ensures Corresponds(Run(history, threshold, recovery), history, now, threshold, recovery)
    decreases |history|
  {
    if history != [] {
      var before, e := history[..|history| - 1], history[|history| - 1];
      RunCorresponds(before, e.at, threshold, recovery);
      LastFailureBefore(before, e.at);
      StepCorresponds(Run(before, threshold, recovery), before, e, threshold, recovery);
      assert before + [e] == history;
      CorrespondsLater(Run(history, threshold, recovery), history, e.at, now, threshold, recovery);
    }
  }

  /** For every history of failures, successes and queries, at any threshold and recovery
      time: `is_open` answers what the history says. */
  lemma {:induction false} IsOpenRefinesHistory(history: seq<Event>, now: int, threshold: int, recovery: int)
    requires recovery >= 1 && Ordered(history) && (history != [] ==> history[|history| - 1].at <= now)
    ensures IsOpen(Run(history, threshold, recovery), now, recovery).1 <==> OpenAt(history, now, threshold, recovery)
  {
    RunCorresponds(history, now, threshold, recovery);
  }

  /** The key never expires while the circuit is open: whenever less than the recovery
      time has passed since it opened, the key is still there.  It lives for twice the
      recovery time after the last failure, and at least a minute. */
  lemma {:induction false} ExpiryNeverClosesEarly(history: seq<Event>, now: int, threshold: int, recovery: int)
    requires recovery >= 1 && Ordered(history) && (history != [] ==> history[|history| - 1].at <= now)
    ensures var c := Run(history, threshold, recovery);
      && (c.Some? && c.value.openedMs.Some? && now - c.value.openedMs.value < recovery ==> Present(c, now) == c)
      && (c.Some? ==>
            && LastFailure(history).Some?
            && c.value.expiresAt == LastFailure(history).value + if recovery > 30000 then 2 * recovery else 60000)
  {
    RunCorresponds(history, now, threshold, recovery);
  }

  // --------------------------------------------------------------- counting since a success

  /** All failures after the last success, whatever the times. */
  function FailuresSinceSuccess(history: seq<Event>): nat
    decreases |history|
  {
    if history == [] then 0 else
      var e := history[|history| - 1];
      if e.kind == Succeeded then 0
      else FailuresSinceSuccess(history[..|history| - 1]) + if e.kind == Failed then 1 else 0
  }

  lemma {:induction false} StreakAtMost(history: seq<Event>, threshold: int, recovery: int)
    ensures Streak(history, threshold, recovery) <= FailuresSinceSuccess(history)
    decreases |history|
  {
    if history != [] { StreakAtMost(history[..|history| - 1], threshold, recovery); }
  }

  /** An open circuit has had `threshold` failures since its last success. */
  lemma {:induction false} OpenNeedsFailures(history: seq<Event>, now: int, threshold: int, recovery: int)
    requires OpenAt(history, now, threshold, recovery)
    ensures FailuresSinceSuccess(history) >= threshold
  {
    StreakAtMost(history, threshold, recovery);
  }

  /** No event since the last success comes a recovery time or more after a failure. */
  ghost predicate Dense(history: seq<Event>, recovery: int)
    decreases |history|
  {
    if history == [] || history[|history| - 1].kind == Succeeded then true else
      var before, e := history[..|history| - 1], history[|history| - 1];
      && (FailuresSinceSuccess(before) > 0 ==> LastFailure(before).Some? && e.at - LastFailure(before).value < recovery)
      && Dense(before, recovery)
  }

  lemma {:induction false} DenseCountsAll(history: seq<Event>, threshold: int, recovery: int)
    requires recovery >= 1 && Dense(history, recovery)
    ensures Streak(history, threshold, recovery) == FailuresSinceSuccess(history)
    decreases |history|
  {
    if history != [] && history[|history| - 1].kind != Succeeded {
      DenseCountsAll(history[..|history| - 1], threshold, recovery);
    }
  }

  lemma {:induction false} FailureHasTime(history: seq<Event>)
    ensures FailuresSinceSuccess(history) > 0 ==> LastFailure(history).Some?
    decreases |history|
  {
    if history != [] { FailureHasTime(history[..|history| - 1]); }
  }

  /** While events keep coming within the recovery time, the circuit is open exactly when
      the failures since the last success have reached the threshold. */
  lemma {:induction false} DenseOpensAtThreshold(history: seq<Event>, now: int, threshold: int, recovery: int)
    requires recovery >= 1 && threshold >= 1 && Dense(history + [Event(Queried, now)], recovery)
    requires Ordered(history) && (history != [] ==> history[|history| - 1].at <= now)
    ensures IsOpen(Run(history, threshold, recovery), now, recovery).1 <==> FailuresSinceSuccess(history) >= threshold
  {
    var asked := history + [Event(Queried, now)];
    assert asked[..|asked| - 1] == history;
    DenseCountsAll(history, threshold, recovery);
    FailureHasTime(history);
    IsOpenRefinesHistory(history, now, threshold, recovery);
  }

  // ------------------------------------------------------------------- the object

  /** The decimal number that a text of digits writes. */
  function Digits(text: string): Option<int>
    decreases |text|
  {
    if text == "" then None else
      var last := text[|text| - 1];
      if !('0' <= last <= '9') then None else
        var digit := last as int - '0' as int;
        if |text| == 1 then Some(digit) else
          var before := Digits(text[..|text| - 1]);
          if before.None? then None else Some(before.value * 10 + digit)
  }

  const HTTP := "upstream_http_"

  /** `is_transient_failure`. */
  predicate IsTransientFailure(reason: string) {
    || reason in ["configured_provider_failure", "upstream_timeout", "upstream_network_error", "upstream_http_429"]
    || (HTTP <= reason && Digits(reason[|HTTP|..]).Some? && Digits(reason[|HTTP|..]).value >= 500)
  }

  /** How the adapters write a status. */
  function Decimal(n: nat): string {
    if n < 10 then [('0' as int + n) as char] else Decimal(n / 10) + [('0' as int + n % 10) as char]
  }

  lemma {:induction false} DigitsOfDecimal(n: nat)
    ensures Digits(Decimal(n)) == Some(n) && Decimal(n) != ""
    decreases n
  {
    if n >= 10 {
      DigitsOfDecimal(n / 10);
      assert Decimal(n)[..|Decimal(n)| - 1] == Decimal(n / 10);
    }
  }

  /** An HTTP status counts as a failure exactly if it is 429 or at least 500. */
  lemma {:induction false} TransientStatusIff(status: nat)
    ensures IsTransientFailure(HTTP + Decimal(status)) <==> status == 429 || status >= 500
  {
    var reason := HTTP + Decimal(status);
    DigitsOfDecimal(status);
    assert reason[|HTTP|..] == Decimal(status);
    assert reason[0] == 'u' && reason[9] == 'h';
    assert "configured_provider_failure"[0] != 'u' && "upstream_timeout"[9] == 't'
           && "upstream_network_error"[9] == 'n';
    StatusText(status);
  }

  /** Of the reasons that are not a status, these three count. */
  lemma {:induction false} TransientReasonIff(reason: string)
    requires !("upstream_http_" <= reason)
    ensures IsTransientFailure(reason) <==>
      reason in ["configured_provider_failure", "upstream_timeout", "upstream_network_error"]
  {
    assert "upstream_http_" <= "upstream_http_429";
  }

  lemma {:induction false} StatusText(status: nat)
    ensures HTTP + Decimal(status) == "upstream_http_429" <==> status == 429
  {
    DigitsOfDecimal(status);
    DigitsOfDecimal(429);
    assert Decimal(4) == "4" && Decimal(42) == Decimal(4) + "2" && Decimal(429) == Decimal(42) + "9";
    assert "upstream_http_429" == HTTP + Decimal(429);
    if HTTP + Decimal(status) == HTTP + Decimal(429) {
      assert (HTTP + Decimal(status))[|HTTP|..] == Decimal(status);
      assert (HTTP + Decimal(429))[|HTTP|..] == Decimal(429);
    }
  }

  class RedisCircuitBreaker {
    const threshold: int
    const recoveryMs: int
    var circuits: map<string, Circuit>

    constructor (failureThreshold: int, recoveryTimeoutSeconds: real)
      ensures threshold == failureThreshold && circuits == map[]
      ensures recoveryMs >= 1 && recoveryMs == Max((recoveryTimeoutSeconds * 1000.0).Floor, 1)
    {
      threshold := failureThreshold;
      recoveryMs := Max((recoveryTimeoutSeconds * 1000.0).Floor, 1);
      circuits := map[];
    }

    function Key(key: string): Option<Circuit>
      reads this
    {
      if key in circuits then Some(circuits[key]) else None
    }

    method Store(key: string, c: Option<Circuit>)
      modifies this
      ensures Key(key) == c && forall k :: k != key ==> Key(k) == old(Key(k))
    {
      circuits := if c.Some? then circuits[key := c.value] else circuits - {key};
    }

    method QueryOpen(key: string, now: int) returns (open: bool)
      modifies this
      ensures Key(key) == Step(old(Key(key)), Event(Queried, now), threshold, recoveryMs)
      ensures open == IsOpen(old(Key(key)), now, recoveryMs).1
      ensures forall k :: k != key ==> Key(k) == old(Key(k))
    {
      var c := Present(Key(key), now);
      if c.None? || c.value.openedMs.None? {
        Store(key, c);
        return false;
      }
      if now - c.value.openedMs.value >= recoveryMs {
        Store(key, None);
        return false;
      }
      return true;
    }

    method RecordFailure(key: string, reason: string, now: int)
      modifies this
      ensures Key(key)
           == if IsTransientFailure(reason) then Step(old(Key(key)), Event(Failed, now), threshold, recoveryMs)
                          else old(Key(key))
      ensures forall k :: k != key ==> Key(k) == old(Key(k))
    {
      if !IsTransientFailure(reason) { return; }
      var c := Present(Key(key), now);
      var failures, openedMs := 1, None;
      if c.Some? { failures, openedMs := c.value.failures + 1, c.value.openedMs; }
      if failures >= threshold { openedMs := Some(now); }
      Store(key, Some(Circuit(failures, openedMs, now + Max(recoveryMs * 2, MIN_TTL_MS))));
    }

    method RecordSuccess(key: string)
      modifies this
      ensures Key(key) == None && forall k :: k != key ==> Key(k) == old(Key(k))
    {
      circuits := circuits - {key};
    }
  }
}
