/** `_native_response_event_stream` and `_finalize_interrupted_stream` of mixapi/app.py: the
    messages of a started response stream, its accounting and the closing of the provider
    stream, whether it completes, breaks off or loses its client. */
module StreamLifecycle {
  import opened Prelude
  import opened Text
  import opened CorrectiveRetry
  import opened Models
  import opened ProviderStreams
  import opened RequestCost

  datatype Message =
    | Created
    | OutputDelta(text: string)
    | Completed(text: string, inputTokens: int, outputTokens: int)
    | FailedMessage

  const DISCONNECTED := "client_disconnected"

  /** One call of `_settle_accounting`; `failure` is the recorded reason, if any. */
  datatype Settlement = Settlement(inputTokens: int, outputTokens: int, failure: Option<string>)

  /** The settlements made so far, in order. */
  class Accounting {
    var settled: seq<Settlement>

    constructor ()
      ensures settled == []
    {
      settled := [];
    }

    method Settle(settlement: Settlement)
      modifies this
      ensures settled == old(settled) + [settlement]
    {
      settled := settled + [settlement];
    }
  }

  datatype Run = Run(messages: seq<Message>, settled: seq<Settlement>)

  /** The events up to and including the first completed one. */
  function Heard(events: seq<StreamEvent>): (n: nat)
    ensures n <= |events|
    ensures forall k :: 0 <= k < n - 1 ==> !events[k].completed
    ensures n < |events| ==> n > 0 && events[n - 1].completed
    decreases |events|
  {
    if events == [] then 0 else
      var n := Heard(events[..|events| - 1]);
      if n > 0 && events[n - 1].completed then n else |events|
  }

  function Deltas(events: seq<StreamEvent>): seq<string>
    decreases |events|
  {
    if events == [] then [] else
      var last := events[|events| - 1].delta;
      Deltas(events[..|events| - 1]) + if last.Some? then [last.value] else []
  }

  function DeltaMessages(texts: seq<string>): seq<Message> {
    seq(|texts|, k requires 0 <= k < |texts| => OutputDelta(texts[k]))
  }

  /** The completion that the gateway finds, if there is one. */
  function FoundCompletion(feed: Feed): Option<StreamEvent> {
    var n := Heard(feed.events);
    if n > 0 && feed.events[n - 1].completed then Some(feed.events[n - 1]) else None
  }

  function OrElse(tokens: Option<int>, counted: int): int { if tokens.Some? then tokens.value else counted }

  /** The last message and the settlement of a stream that nobody disconnects from. */
  function Ending(feed: Feed, promptTokens: int): (Message, Settlement) {
    var text := Join("", Deltas(feed.events[..Heard(feed.events)]));
    var completion := FoundCompletion(feed);
    if completion.Some? then
      var input, output := OrElse(completion.value.inputTokens, promptTokens),
          OrElse(completion.value.outputTokens, CountTokens(text));
      (Completed(text, input, output), Settlement(input, output, None))
    else
      (FailedMessage, Settlement(promptTokens, CountTokens(text), Some(OrReason(feed.error))))
  }

  function OrReason(error: Option<string>): string { if error.Some? then error.value else INVALID }

  /** All messages of a stream that keeps its client. */
  function AllMessages(feed: Feed, promptTokens: int): seq<Message> {
    [Created] + DeltaMessages(Deltas(feed.events[..Heard(feed.events)])) + [Ending(feed, promptTokens).0]
  }

  /** The text of the deltas among messages. */
  function SentText(messages: seq<Message>): string
    decreases |messages|
  {
    if messages == [] then "" else
      var last := messages[|messages| - 1];
      SentText(messages[..|messages| - 1]) + if last.OutputDelta? then last.text else ""
  }

  /** A client that leaves at message `leaves` (counted from 0) gets the messages up to
      that one.  If the accounting had not been settled before it, it is settled for the
      text sent so far. */
  function Expected(feed: Feed, promptTokens: int, leaves: Option<nat>): Run {
    var all := AllMessages(feed, promptTokens);
    if leaves.Some? && leaves.value < |all| - 1 then
      var sent := all[..leaves.value + 1];
      Run(sent, [Settlement(promptTokens, CountTokens(SentText(sent)), Some(DISCONNECTED))])
    else
      Run(all, [Ending(feed, promptTokens).1])
  }

  lemma {:induction false} DeltasNext(events: seq<StreamEvent>, i: nat)
    requires i < |events|
    ensures Deltas(events[..i + 1])
         == Deltas(events[..i]) + if events[i].delta.Some? then [events[i].delta.value] else []
  {
    assert events[..i + 1][..i] == events[..i];
  }

  lemma {:induction false} SentAppend(messages: seq<Message>, text: string)
    ensures SentText(messages + [OutputDelta(text)]) == SentText(messages) + text
  {
    assert (messages + [OutputDelta(text)])[..|messages|] == messages;
  }

  lemma {:induction false} DeltaMessagesAppend(texts: seq<string>, last: string)
    ensures [Created] + DeltaMessages(texts + [last]) == [Created] + DeltaMessages(texts) + [OutputDelta(last)]
  {
    assert DeltaMessages(texts + [last]) == DeltaMessages(texts) + [OutputDelta(last)];
  }

  lemma {:induction false} NothingSent()
    ensures SentText([Created] + DeltaMessages([])) == ""
  {
    assert [Created] + DeltaMessages([]) == [Created];
    assert [Created][..0] == [];
  }

  lemma {:induction false} SentTextIs(texts: seq<string>)
    ensures SentText([Created] + DeltaMessages(texts)) == Join("", texts)
    decreases |texts|
  {
    if texts == [] {
      NothingSent();
    } else {
      var init, last := texts[..|texts| - 1], texts[|texts| - 1];
      assert texts == init + [last];
      SentTextIs(init);
      DeltaMessagesAppend(init, last);
      SentAppend([Created] + DeltaMessages(init), last);
      JoinAppend(init, last);
    }
  }

  /** The deltas of the first events are a prefix of all. */
  lemma {:induction false} DeltasPrefix(events: seq<StreamEvent>, i: nat)
    requires i <= |events|
    ensures |Deltas(events[..i])| <= |Deltas(events)| && Deltas(events[..i]) == Deltas(events)[..|Deltas(events[..i])|]
    decreases |events|
  {
    if i == |events| {
      assert events[..i] == events;
    } else {
      var init := events[..|events| - 1];
      assert init[..i] == events[..i];
      DeltasPrefix(init, i);
    }
  }

  /** The messages of the first `i` events are sent before the ending. */
  lemma {:induction false} SentSoFar(feed: Feed, promptTokens: int, i: nat)
    requires i <= Heard(feed.events)
    ensures var sent := [Created] + DeltaMessages(Deltas(feed.events[..i]));
            var all := AllMessages(feed, promptTokens);
      |sent| < |all| && sent == all[..|sent|]
  {
    var heard := feed.events[..Heard(feed.events)];
    assert heard[..i] == feed.events[..i];
    DeltasPrefix(heard, i);
  }

  lemma {:induction false} LeavesHere(
      feed: Feed, promptTokens: int, i: nat, messages: seq<Message>, chunks: seq<string>)
    requires i <= Heard(feed.events) && chunks == Deltas(feed.events[..i])
    requires messages == [Created] + DeltaMessages(chunks)
    ensures Expected(feed, promptTokens, Some(|messages| - 1))
         == Run(messages, [Settlement(promptTokens, CountTokens(Join("", chunks)), Some(DISCONNECTED))])
  {
    SentSoFar(feed, promptTokens, i);
    SentTextIs(chunks);
  }

  lemma {:induction false} StaysOn(feed: Feed, promptTokens: int, leaves: Option<nat>, n: nat, messages: seq<Message>)
    requires n == Heard(feed.events) && messages == [Created] + DeltaMessages(Deltas(feed.events[..n]))
    requires leaves.Some? ==> leaves.value >= |messages|
    ensures var ending := Ending(feed, promptTokens);
      Expected(feed, promptTokens, leaves) == Run(messages + [ending.0], [ending.1])
  {
  }

  /** While no event was completed the next one is heard, and it is the last if completed. */
  lemma {:induction false} NextIsHeard(feed: Feed, i: nat)
    requires i <= |feed.events| && forall k :: 0 <= k < i ==> !feed.events[k].completed
    ensures i == |feed.events| ==> Heard(feed.events) == i && FoundCompletion(feed) == None
    ensures i < |feed.events| ==> i < Heard(feed.events)
    ensures i < |feed.events| && feed.events[i].completed ==>
      Heard(feed.events) == i + 1 && FoundCompletion(feed) == Some(feed.events[i])
  {
  }

  /** What the next event adds to what was read and sent. */
  lemma {:induction false} NextDelta(events: seq<StreamEvent>, i: nat, messages: seq<Message>, chunks: seq<string>)
    requires i < |events| && chunks == Deltas(events[..i]) && messages == [Created] + DeltaMessages(chunks)
    ensures events[i].delta.None? ==> chunks == Deltas(events[..i + 1])
    ensures events[i].delta.Some? ==>
      && chunks + [events[i].delta.value] == Deltas(events[..i + 1])
      && messages + [OutputDelta(events[i].delta.value)]
           == [Created] + DeltaMessages(chunks + [events[i].delta.value])
  {
    DeltasNext(events, i);
    if events[i].delta.Some? { DeltaMessagesAppend(chunks, events[i].delta.value); }
  }

  /** Reads events until one is completed, the stream ends or the client leaves. */
  method Forward(stream: ProviderStream, promptTokens: int, leaves: Option<nat>)
    returns (messages: seq<Message>, chunks: seq<string>, completion: Option<StreamEvent>, left: bool)
    requires stream.Valid() && stream.position == 0 && !stream.closed && leaves != Some(0)
    modifies stream
    ensures stream.Valid() && stream.closed
    ensures chunks == Deltas(stream.feed.events[..stream.position]) && messages == [Created] + DeltaMessages(chunks)
    ensures left ==> leaves == Some(|messages| - 1) && stream.position <= Heard(stream.feed.events)
    ensures !left ==> stream.position == Heard(stream.feed.events) && completion == FoundCompletion(stream.feed)
    ensures !left && leaves.Some? ==> leaves.value >= |messages|
  {
    messages, chunks, completion, left := [Created], [], None, false;
    var events := stream.feed.events;
    ghost var heard, found := Heard(events), FoundCompletion(stream.feed);
    assert [Created] + DeltaMessages([]) == [Created];
    while completion.None?
      invariant stream.Valid() && !stream.closed && stream.position <= heard
      invariant chunks == Deltas(events[..stream.position]) && messages == [Created] + DeltaMessages(chunks)
      invariant leaves.Some? ==> leaves.value >= |messages|
      invariant completion.None? ==> forall k :: 0 <= k < stream.position ==> !events[k].completed
      invariant completion.Some? ==> stream.position == heard && completion == found
      decreases |events| - stream.position, if completion.None? then 1 else 0
    {
      ghost var i := stream.position;
      NextIsHeard(stream.feed, i);
      var event := stream.Next();
      if event.None? { return; }
      NextDelta(events, i, messages, chunks);
      if event.value.delta.Some? {
        chunks := chunks + [event.value.delta.value];
        messages := messages + [OutputDelta(event.value.delta.value)];
        if leaves == Some(|messages| - 1) {
          left := true;
          stream.Close();
          return;
        }
      }
      if event.value.completed { completion := event; }
    }
    stream.Close();
  }

  /** `_finalize_interrupted_stream`: settles the prompt and the text sent so far. */
  method FinalizeInterrupted(accounting: Accounting, promptTokens: int, outputText: string, reason: string)
    modifies accounting
    ensures accounting.settled
         == old(accounting.settled) + [Settlement(promptTokens, CountTokens(outputText), Some(reason))]
  {
    accounting.Settle(Settlement(promptTokens, CountTokens(outputText), Some(reason)));
  }

  /** The generator: `leaves` is the message after which the client is gone, if it goes.
      On every path the accounting gains exactly the expected settlement. */
  method NativeResponseEventStream(
      stream: ProviderStream, accounting: Accounting, promptTokens: int, leaves: Option<nat>)
    returns (messages: seq<Message>)
    requires stream.Valid() && stream.position == 0 && !stream.closed
    modifies stream, accounting
    ensures messages == Expected(stream.feed, promptTokens, leaves).messages
    ensures accounting.settled == old(accounting.settled) + Expected(stream.feed, promptTokens, leaves).settled
    ensures stream.closed && stream.closes == 1
  {
    ghost var feed := stream.feed;
    if leaves == Some(0) {
      stream.Close();
      LeavesHere(feed, promptTokens, 0, [Created], []);
      FinalizeInterrupted(accounting, promptTokens, "", DISCONNECTED);
      return [Created];
    }
    var chunks, completion, left;
    messages, chunks, completion, left := Forward(stream, promptTokens, leaves);
    var text := Join("", chunks);
    if left {
      LeavesHere(feed, promptTokens, stream.position, messages, chunks);
      FinalizeInterrupted(accounting, promptTokens, text, DISCONNECTED);
      return;
    }
    StaysOn(feed, promptTokens, leaves, stream.position, messages);
    if completion.None? {
      var reason := if stream.feed.error.Some? then stream.feed.error.value else INVALID;
      FinalizeInterrupted(accounting, promptTokens, text, reason);
      messages := messages + [FailedMessage];
      return;
    }
    var input := if completion.value.inputTokens.Some? then completion.value.inputTokens.value else promptTokens;
    var output := if completion.value.outputTokens.Some? then completion.value.outputTokens.value
      else CountTokens(text);
    accounting.Settle(Settlement(input, output, None));
    messages := messages + [Completed(text, input, output)];
  }

  // --------------------------------------------------------------------------- properties

  predicate IsEnding(m: Message) { m.Completed? || m.FailedMessage? }

  /** Created, then deltas, then at most one ending: whatever the provider does and
      whenever the client leaves, with exactly one settlement; a completed message carries
      exactly the text of the deltas before it. */
  lemma {:induction false} StreamLifecycleHolds(feed: Feed, promptTokens: int, leaves: Option<nat>)
    ensures var run := Expected(feed, promptTokens, leaves);
            var n := |run.messages|;
      && n > 0 && run.messages[0] == Created && |run.settled| == 1
      && (forall k :: 0 < k < n - 1 ==> run.messages[k].OutputDelta?)
      && (n > 1 ==> run.messages[n - 1].OutputDelta? || IsEnding(run.messages[n - 1]))
      && (run.messages[n - 1].Completed? ==> run.messages[n - 1].text == SentText(run.messages[..n - 1]))
      && (leaves.None? ==> IsEnding(run.messages[n - 1]))
  {
    var texts := Deltas(feed.events[..Heard(feed.events)]);
    var all := AllMessages(feed, promptTokens);
    SentTextIs(texts);
    assert all[..|all| - 1] == [Created] + DeltaMessages(texts);
  }

  /** The settlement of a stream whose client stays counts the text sent if it fails. */
  lemma {:induction false} WholeRunMatches(feed: Feed, promptTokens: int)
    ensures var all, ending := AllMessages(feed, promptTokens), Ending(feed, promptTokens);
      && all[|all| - 1] == ending.0
      && (ending.0.FailedMessage? ==> ending.1.outputTokens == CountTokens(SentText(all)))
  {
    var texts := Deltas(feed.events[..Heard(feed.events)]);
    var all := AllMessages(feed, promptTokens);
    SentTextIs(texts);
    var before := [Created] + DeltaMessages(texts);
    assert all[..|all| - 1] == before;
    assert SentText(before) + "" == SentText(before);
  }

  /** What was settled agrees with what was sent: the settlement records no failure exactly
      if the stream completed, and then the tokens of the completed message; otherwise it
      counts the prompt and the text sent. */
  lemma {:induction false} SettlementMatchesMessages(feed: Feed, promptTokens: int, leaves: Option<nat>)
    ensures var run := Expected(feed, promptTokens, leaves);
            var last := run.messages[|run.messages| - 1];
            var settled := run.settled[0];
      && (settled.failure.None? <==> last.Completed?)
      && (last.Completed? ==> settled.inputTokens == last.inputTokens && settled.outputTokens == last.outputTokens)
      && (!last.Completed? ==>
            settled.inputTokens == promptTokens && settled.outputTokens == CountTokens(SentText(run.messages)))
  {
    var all := AllMessages(feed, promptTokens);
    if leaves.Some? && leaves.value < |all| - 1 {
      assert !all[leaves.value].Completed?;
      assert all[..leaves.value + 1][leaves.value] == all[leaves.value];
    } else {
      WholeRunMatches(feed, promptTokens);
    }
  }

  lemma {:induction false} DeltasJoined(events: seq<StreamEvent>)
    ensures Join("", Deltas(events)) == DeltaText(events)
    decreases |events|
  {
    if events != [] {
      var init, last := events[..|events| - 1], events[|events| - 1];
      DeltasJoined(init);
      if last.delta.Some? {
        JoinAppend(Deltas(init), last.delta.value);
      } else {
        assert Deltas(events) == Deltas(init);
      }
    }
  }

  predicate FirstCompleted(events: seq<StreamEvent>, n: nat) {
    n < |events| && events[n].completed && forall k :: 0 <= k < n ==> !events[k].completed
  }

  /** The events that matter: up to the first completed one, or all. */
  lemma {:induction false} HeardIs(feed: Feed, n: nat)
    ensures FirstCompleted(feed.events, n) ==>
      Heard(feed.events) == n + 1 && FoundCompletion(feed) == Some(feed.events[n])
    ensures (forall k :: 0 <= k < |feed.events| ==> !feed.events[k].completed) ==>
      && Heard(feed.events) == |feed.events| && feed.events[..Heard(feed.events)] == feed.events
      && FoundCompletion(feed) == None
  {
    assert feed.events[..|feed.events|] == feed.events;
  }

  /** The client is still there when the deltas of the events heard have been sent. */
  predicate Stays(feed: Feed, leaves: Option<nat>) {
    leaves.None? || leaves.value > |Deltas(feed.events[..Heard(feed.events)])|
  }

  /** A stream that completes for its client is settled, and reported to it, with the counts
      of its first completed event; the prompt and the words of the text stand in for a count
      that the event does not have. */
  lemma {:induction false} CompletedStreamCounts(feed: Feed, promptTokens: int, leaves: Option<nat>, n: nat)
    requires FirstCompleted(feed.events, n) && Stays(feed, leaves)
    ensures var run := Expected(feed, promptTokens, leaves);
            var completed := feed.events[n];
            var text := DeltaText(feed.events[..n + 1]);
            var input := if completed.inputTokens.None? then promptTokens else completed.inputTokens.value;
            var output := if completed.outputTokens.None? then CountTokens(text) else completed.outputTokens.value;
      && run.messages != [] && run.messages[|run.messages| - 1] == Completed(text, input, output)
      && run.settled == [Settlement(input, output, None)]
  {
    HeardIs(feed, n);
    DeltasJoined(feed.events[..n + 1]);
  }

  /** Without a completed event the prompt and the words of the whole text are settled, under
      the reason with which the provider's stream ended. */
  lemma {:induction false} BrokenStreamCounts(feed: Feed, promptTokens: int, leaves: Option<nat>)
    requires (forall k :: 0 <= k < |feed.events| ==> !feed.events[k].completed) && Stays(feed, leaves)
    ensures var run := Expected(feed, promptTokens, leaves);
            var reason := if feed.error.Some? then feed.error.value else "invalid_upstream_response";
      && run.messages != [] && run.messages[|run.messages| - 1] == FailedMessage
      && run.settled == [Settlement(promptTokens, CountTokens(DeltaText(feed.events)), Some(reason))]
  {
    HeardIs(feed, 0);
    DeltasJoined(feed.events);
  }

  lemma {:induction false} FirstMessages(texts: seq<string>, n: nat, ending: Message)
    requires n <= |texts|
    ensures ([Created] + DeltaMessages(texts) + [ending])[..n + 1] == [Created] + DeltaMessages(texts[..n])
  {
    assert DeltaMessages(texts)[..n] == DeltaMessages(texts[..n]);
    assert ([Created] + DeltaMessages(texts) + [ending])[..n + 1] == [Created] + DeltaMessages(texts)[..n];
  }

  /** A client that leaves early was sent that many deltas after the first message, and the
      prompt and the words of these are settled. */
  lemma {:induction false} LeftStreamCounts(feed: Feed, promptTokens: int, left: nat)
    requires !Stays(feed, Some(left))
    ensures var run := Expected(feed, promptTokens, Some(left));
            var deltas := Deltas(feed.events[..Heard(feed.events)]);
      && run.messages == [Created] + DeltaMessages(deltas[..left])
      && run.settled == [Settlement(promptTokens, CountTokens(Join("", deltas[..left])), Some("client_disconnected"))]
  {
    var deltas := Deltas(feed.events[..Heard(feed.events)]);
    FirstMessages(deltas, left, Ending(feed, promptTokens).0);
    SentTextIs(deltas[..left]);
  }

  /** Every delta of an event is one message, in order. */
  lemma {:induction false} DeltaIsSent(feed: Feed, promptTokens: int, i: nat)
    requires i < Heard(feed.events) && feed.events[i].delta.Some?
    ensures var at := 1 + |Deltas(feed.events[..i])|;
      && at < |AllMessages(feed, promptTokens)| - 1
      && AllMessages(feed, promptTokens)[at] == OutputDelta(feed.events[i].delta.value)
  {
    var heard := feed.events[..Heard(feed.events)];
    DeltasNext(feed.events, i);
    assert heard[..i + 1] == feed.events[..i + 1];
    DeltasPrefix(heard, i + 1);
    assert Deltas(heard)[|Deltas(feed.events[..i])|] == feed.events[i].delta.value;
  }

  /** A disconnection is recorded exactly when the client left before the ending. */
  lemma {:induction false} DisconnectedIff(feed: Feed, promptTokens: int, leaves: Option<nat>)
    requires feed.error != Some("client_disconnected")
    ensures Expected(feed, promptTokens, leaves).settled[0].failure == Some("client_disconnected") <==>
      !Stays(feed, leaves)
  {
    assert |INVALID| != |DISCONNECTED|;
  }

  lemma {:induction false} HeardAll(feed: Feed)
    requires DeltasThenCompletion(feed)
    ensures Heard(feed.events) == |feed.events| && feed.events[..Heard(feed.events)] == feed.events
    ensures FoundCompletion(feed).Some? <==> feed.error.None?
  {
    assert Heard(feed.events) == |feed.events|;
  }

  lemma {:induction false} AllMessagesOfWhole(feed: Feed, promptTokens: int)
    requires DeltasThenCompletion(feed)
    ensures var all := AllMessages(feed, promptTokens);
      SentText(all[..|all| - 1]) == DeltaText(feed.events) && (all[|all| - 1].Completed? <==> feed.error.None?)
  {
    HeardAll(feed);
    DeltasJoined(feed.events);
    SentTextIs(Deltas(feed.events));
    var all := AllMessages(feed, promptTokens);
    assert all[..|all| - 1] == [Created] + DeltaMessages(Deltas(feed.events));
  }

  /** Over any of the four machines: a client that stays receives the whole provider text
      and a completion exactly if the machine completed. */
  lemma {:induction false} MachineTextIsDelivered(actions: seq<Action>, end: End, promptTokens: int)
    ensures var all := AllMessages(ProviderStreams.Result(Play(START, actions), end), promptTokens);
      && SentText(all[..|all| - 1]) == Emitted(actions[..Stop(actions)])
      && (all[|all| - 1].Completed? <==> Stop(actions) < |actions| && actions[Stop(actions)].Finish?)
  {
    MachineMeaning(actions, end);
    AllMessagesOfWhole(ProviderStreams.Result(Play(START, actions), end), promptTokens);
  }

  ghost predicate SettlesAs(
      run: Run, completes: bool, text: string, input: int, output: int, promptTokens: int, reason: string) {
    && run.messages != []
    && var last := run.messages[|run.messages| - 1];
       if completes then
         last == Completed(text, input, output) && run.settled == [Settlement(input, output, None)]
       else
         last == FailedMessage && run.settled == [Settlement(promptTokens, CountTokens(text), Some(reason))]
  }

  lemma {:induction false} WholeFeedCompletes(
      feed: Feed, text: string, input: Option<int>, output: Option<int>, promptTokens: int)
    requires Means(feed, text, input, output, None)
    ensures SettlesAs(Expected(feed, promptTokens, None), true, text, OrElse(input, promptTokens),
                      OrElse(output, CountTokens(text)), promptTokens, "")
  {
    var n := |feed.events|;
    assert feed.events[..n] == feed.events;
    assert FirstCompleted(feed.events, n - 1);
    CompletedStreamCounts(feed, promptTokens, None, n - 1);
  }

  lemma {:induction false} NoneCompleted(feed: Feed)
    requires DeltasThenCompletion(feed) && feed.error.Some?
    ensures forall k :: 0 <= k < |feed.events| ==> !feed.events[k].completed
  {
  }

  /** So the settlement of a stream that is heard to its end is determined by what the frames
      of its provider mean. */
  lemma {:induction false} WholeFeedCounts(
      feed: Feed, text: string, input: Option<int>, output: Option<int>, error: Option<string>, promptTokens: int)
    requires Means(feed, text, input, output, error)
    ensures SettlesAs(Expected(feed, promptTokens, None), error.None?, text, OrElse(input, promptTokens),
                      OrElse(output, CountTokens(text)), promptTokens, if error.Some? then error.value else "")
  {
    if error.None? {
      WholeFeedCompletes(feed, text, input, output, promptTokens);
    } else {
      NoneCompleted(feed);
      BrokenStreamCounts(feed, promptTokens, None);
    }
  }

  /** Over any of the four machines: a client that stays is billed for the last counts that
      the machine reported before its finish, or for the prompt and the emitted text; a
      stream that fails instead is recorded with the machine's reason. */
  lemma {:induction false} MachineCountsAreSettled(actions: seq<Action>, end: End, promptTokens: int)
    ensures var feed, k := ProviderStreams.Result(Play(START, actions), end), Stop(actions);
            var said := actions[..k];
      SettlesAs(Expected(feed, promptTokens, None), k < |actions| && actions[k].Finish?, Emitted(said),
                OrElse(LastInput(said), promptTokens), OrElse(LastOutput(said), CountTokens(Emitted(said))),
                promptTokens, if k == |actions| then EndReason(end) else "invalid_upstream_response")
  {
    var feed, said := ProviderStreams.Result(Play(START, actions), end), actions[..Stop(actions)];
    MachineMeaning(actions, end);
    WholeFeedCounts(feed, Emitted(said), LastInput(said), LastOutput(said), feed.error, promptTokens);
  }

  // ------------------------------------------------------------------------- billing

  lemma {:induction false} SomeWord(s: string)
    requires s != "" && !IsSpace(s[0])
    ensures Words(s) > 0
    decreases |s|
  {
    if |s| > 1 && !IsSpace(s[1]) { SomeWord(s[1..]); }
  }

  /** A text has at least the words of its beginning, although the cut may split one. */
  lemma {:induction false} WordsOfPrefix(s: string, t: string)
    ensures Words(s) <= Words(s + t)
    decreases |s|
  {
    if s != "" {
      assert (s + t)[1..] == s[1..] + t;
      WordsOfPrefix(s[1..], t);
      if |s| == 1 && !IsSpace(s[0]) { SomeWord(s + t); }
    }
  }

  lemma {:induction false} TokensOfPrefix(s: string, t: string)
    ensures CountTokens(s) <= CountTokens(s + t)
  {
    WordsOfPrefix(s, t);
  }

  /** What was sent up to any message is the beginning of what is sent in all. */
  lemma {:induction false} SentPrefix(messages: seq<Message>, n: nat)
    requires n <= |messages|
    ensures SentText(messages[..n]) <= SentText(messages)
    decreases |messages|
  {
    if n < |messages| {
      assert messages[..|messages| - 1][..n] == messages[..n];
      SentPrefix(messages[..|messages| - 1], n);
    } else {
      assert messages[..n] == messages;
    }
  }

  predicate LeavesEarly(feed: Feed, leaves: Option<nat>) { leaves.Some? && leaves.value < |AllMessages(feed, 0)| - 1 }

  /** The text that the client was sent. */
  function TextSent(feed: Feed, leaves: Option<nat>): string { SentText(Expected(feed, 0, leaves).messages) }

  /** What is billed is within the estimate: the reported counts of a stream that completes
      for its client, and the text sent only where it is counted instead. */
  predicate StreamWithinEstimate(r: Request, c: ProviderModel, feed: Feed, leaves: Option<nat>) {
    var completion := FoundCompletion(feed);
    if LeavesEarly(feed, leaves) || completion.None? then CountTokens(TextSent(feed, leaves)) <= OutputLimit(r, c) else
      && 0 <= OrElse(completion.value.inputTokens, 0) <= InputLimit(r, 0)
      && 0 <= OrElse(completion.value.outputTokens, CountTokens(TextSent(feed, leaves))) <= OutputLimit(r, c)
  }

  /** What a client that leaves early was sent counts at most the tokens of the whole text. */
  lemma {:induction false} LeavingCountsLess(feed: Feed, promptTokens: int, n: nat)
    requires n < |AllMessages(feed, promptTokens)|
    ensures CountTokens(SentText(AllMessages(feed, promptTokens)[..n]))
         <= CountTokens(Join("", Deltas(feed.events[..Heard(feed.events)])))
  {
    var texts := Deltas(feed.events[..Heard(feed.events)]);
    var before := [Created] + DeltaMessages(texts);
    assert AllMessages(feed, promptTokens)[..n] == before[..n];
    SentTextIs(texts);
    SentPrefix(before, n);
    PrefixTokens(SentText(before[..n]), Join("", texts));
  }

  lemma {:induction false} PrefixTokens(s: string, whole: string)
    requires s <= whole
    ensures CountTokens(s) <= CountTokens(whole)
  {
    TokensOfPrefix(s, whole[|s|..]);
    assert s + whole[|s|..] == whole;
  }

  /** A provider whose whole text and reported counts are within the estimate keeps the
      stream within it, whenever the client leaves. */
  lemma {:induction false} WholeTextIsEnough(r: Request, c: ProviderModel, feed: Feed, leaves: Option<nat>)
    requires CountTokens(Join("", Deltas(feed.events[..Heard(feed.events)]))) <= OutputLimit(r, c)
    requires var completion := FoundCompletion(feed);
      completion.Some? ==>
        && 0 <= OrElse(completion.value.inputTokens, 0) <= InputLimit(r, 0)
        && 0 <= OrElse(completion.value.outputTokens, 0) <= OutputLimit(r, c)
    ensures StreamWithinEstimate(r, c, feed, leaves)
  {
    if LeavesEarly(feed, leaves) {
      LeavingCountsLess(feed, 0, leaves.value + 1);
    } else {
      WholeTextSent(feed);
    }
  }

  lemma {:induction false} WholeTextSent(feed: Feed)
    ensures SentText(AllMessages(feed, 0)) == Join("", Deltas(feed.events[..Heard(feed.events)]))
  {
    var texts := Deltas(feed.events[..Heard(feed.events)]);
    var before := [Created] + DeltaMessages(texts);
    SentTextIs(texts);
    assert AllMessages(feed, 0)[..|before|] == before;
    assert SentText(before) + "" == SentText(before);
  }

  /** The text sent does not depend on what the prompt counts. */
  lemma {:induction false} SentWhateverThePrompt(feed: Feed, promptTokens: int, leaves: Option<nat>)
    ensures LeavesEarly(feed, leaves) <==> leaves.Some? && leaves.value < |AllMessages(feed, promptTokens)| - 1
    ensures SentText(Expected(feed, promptTokens, leaves).messages) == TextSent(feed, leaves)
  {
    var some, none := AllMessages(feed, promptTokens), AllMessages(feed, 0);
    var n := |none| - 1;
    assert some[..n] == none[..n];
    if LeavesEarly(feed, leaves) {
      assert some[..leaves.value + 1] == none[..leaves.value + 1];
    }
  }

  lemma {:induction false} SettledWithin(r: Request, c: ProviderModel, feed: Feed, leaves: Option<nat>)
    requires StreamWithinEstimate(r, c, feed, leaves)
    ensures var run := Expected(feed, InputLimit(r, 0), leaves);
      && |run.settled| == 1
      && 0 <= run.settled[0].inputTokens <= InputLimit(r, 0) && 0 <= run.settled[0].outputTokens <= OutputLimit(r, c)
  {
    SentWhateverThePrompt(feed, InputLimit(r, 0), leaves);
    SettlementMatchesMessages(feed, InputLimit(r, 0), leaves);
    if !LeavesEarly(feed, leaves) { WholeTextSent(feed); }
  }

  /** A stream within its estimate is billed at most what was reserved for it, whether it
      completes, breaks off or loses its client at any message. */
  lemma {:induction false} StreamBilledAtMostReserved(
      r: Request, candidates: seq<ProviderModel>, i: nat, feed: Feed, leaves: Option<nat>)
    requires Priced(candidates) && i < |candidates|
    requires StreamWithinEstimate(r, candidates[i], feed, leaves)
    ensures var settled := Expected(feed, InputLimit(r, 0), leaves).settled[0];
      && settled.inputTokens >= 0 && settled.outputTokens >= 0
      && 0 <= EstimateCost(settled.inputTokens, settled.outputTokens, candidates[i].inputPrice,
                           candidates[i].outputPrice)
           <= Reservation(r, candidates)
      && settled.inputTokens + settled.outputTokens <= EstimateTokens(r, candidates)
  {
    var c := candidates[i];
    SettledWithin(r, c, feed, leaves);
    var settled := Expected(feed, InputLimit(r, 0), leaves).settled[0];
    CostMonotone(settled.inputTokens, settled.outputTokens, InputLimit(r, 0), OutputLimit(r, c), c.inputPrice,
                 c.outputPrice);
    CostMonotone(0, 0, InputLimit(r, 1), OutputLimit(r, c), c.inputPrice, c.outputPrice);
    ReservationCovers(r, candidates);
    TokensCover(r, candidates);
  }
}
