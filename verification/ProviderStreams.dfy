/** The event machines of mixapi/adapters.py: what each provider's frames become, and the
    `ProviderStream` that hands the events on and closes the connection. */
module ProviderStreams {
  import opened Prelude
  import opened Text

  datatype StreamEvent = StreamEvent(
    delta: Option<string>, completed: bool, inputTokens: Option<int>, outputTokens: Option<int>)

  /** The events of an iterator and what ends it: `None` if it is exhausted, otherwise
      the reason of the `ProviderDispatchError` it raises. */
  datatype Feed = Feed(events: seq<StreamEvent>, error: Option<string>)

  function Delta(text: string): StreamEvent { StreamEvent(Some(text), false, None, None) }

  function Completion(input: Option<int>, output: Option<int>): StreamEvent { StreamEvent(None, true, input, output) }

  /** How the lines of the response end. */
  datatype End = Closed | TimedOut | NetworkFailed

  const INVALID := "invalid_upstream_response"

  function EndReason(end: End): string {
    match end case Closed => INVALID case TimedOut => "upstream_timeout" case NetworkFailed => "upstream_network_error"
  }

  // ------------------------------------------------------------- the meaning of a stream

  /** What frames make a machine do. */
  datatype Action = Emit(text: string) | SetInput(tokens: int) | SetOutput(tokens: int) | Finish | Fail

  datatype Machine =
    | Running(input: Option<int>, output: Option<int>, events: seq<StreamEvent>)
    | Stopped(feed: Feed)

  const START := Running(None, None, [])

  function Step(m: Machine, a: Action): Machine {
    if m.Stopped? then m else
      match a
      case Emit(text) => if text == "" then m else m.(events := m.events + [Delta(text)])
      case SetInput(tokens) => m.(input := Some(tokens))
      case SetOutput(tokens) => m.(output := Some(tokens))
      case Finish => Stopped(Feed(m.events + [Completion(m.input, m.output)], None))
      case Fail => Stopped(Feed(m.events, Some(INVALID)))
  }

  function Play(m: Machine, actions: seq<Action>): Machine
    decreases |actions|
  {
    if actions == [] then m else Step(Play(m, actions[..|actions| - 1]), actions[|actions| - 1])
  }

  function Result(m: Machine, end: End): Feed {
    match m case Stopped(feed) => feed case Running(_, _, events) => Feed(events, Some(EndReason(end)))
  }

  lemma {:induction false} PlayAppend(m: Machine, a: seq<Action>, b: seq<Action>)
    ensures Play(m, a + b) == Play(Play(m, a), b)
    decreases |b|
  {
    if b == [] {
      assert a + b == a;
    } else {
      assert (a + b)[..|a + b| - 1] == a + b[..|b| - 1];
      PlayAppend(m, a, b[..|b| - 1]);
    }
  }

  lemma {:induction false} StoppedStays(m: Machine, actions: seq<Action>)
    requires m.Stopped?
    ensures Play(m, actions) == m
    decreases |actions|
  {
    if actions != [] { StoppedStays(m, actions[..|actions| - 1]); }
  }

  /** The deltas of events, joined. */
  function DeltaText(events: seq<StreamEvent>): string
    decreases |events|
  {
    if events == [] then "" else
      var last := events[|events| - 1].delta;
      DeltaText(events[..|events| - 1]) + if last.Some? then last.value else ""
  }

  /** Non-empty deltas and then one completion, or an error without one. */
  ghost predicate DeltasThenCompletion(feed: Feed) {
    var n := |feed.events|;
    && (forall k :: 0 <= k < n - 1 ==> !feed.events[k].completed)
    && (forall k :: 0 <= k < n && !feed.events[k].completed ==>
          feed.events[k].delta.Some? && feed.events[k].delta.value != "")
    && (forall k :: 0 <= k < n && feed.events[k].completed ==> feed.events[k].delta.None?)
    && (feed.error.None? <==> n > 0 && feed.events[n - 1].completed)
  }

  /** Where a machine stops: at the first `Finish` or `Fail`. */
  function Stop(actions: seq<Action>): (k: nat)
    ensures k <= |actions| && (k < |actions| ==> actions[k].Finish? || actions[k].Fail?)
    ensures forall i :: 0 <= i < k ==> !actions[i].Finish? && !actions[i].Fail?
    decreases |actions|
  {
    if actions == [] then 0
    else if Stop(actions[..|actions| - 1]) < |actions| - 1 then Stop(actions[..|actions| - 1])
    else if actions[|actions| - 1].Finish? || actions[|actions| - 1].Fail? then |actions| - 1 else |actions|
  }

  function Emitted(actions: seq<Action>): string
    decreases |actions|
  {
    if actions == [] then "" else
      var last := actions[|actions| - 1];
      Emitted(actions[..|actions| - 1]) + if last.Emit? then last.text else ""
  }

  /** One delta for each text emitted, in order, and none for an empty one. */
  function EmittedDeltas(actions: seq<Action>): seq<StreamEvent>
    decreases |actions|
  {
    if actions == [] then [] else
      var last := actions[|actions| - 1];
      EmittedDeltas(actions[..|actions| - 1])
      + if last.Emit? && last.text != "" then [StreamEvent(Some(last.text), false, None, None)] else []
  }

  function LastInput(actions: seq<Action>): Option<int>
    decreases |actions|
  {
    if actions == [] then None
    else if actions[|actions| - 1].SetInput? then Some(actions[|actions| - 1].tokens)
    else LastInput(actions[..|actions| - 1])
  }

  function LastOutput(actions: seq<Action>): Option<int>
    decreases |actions|
  {
    if actions == [] then None
    else if actions[|actions| - 1].SetOutput? then Some(actions[|actions| - 1].tokens)
    else LastOutput(actions[..|actions| - 1])
  }

  ghost predicate OnlyDeltas(events: seq<StreamEvent>) {
    forall k :: 0 <= k < |events| ==> !events[k].completed && events[k].delta.Some? && events[k].delta.value != ""
  }

  lemma {:induction false} PlayCounts(actions: seq<Action>)
    requires Stop(actions) == |actions|
    ensures var m := Play(START, actions);
      m.Running? && m.input == LastInput(actions) && m.output == LastOutput(actions)
    decreases |actions|
  {
    if actions != [] { PlayCounts(actions[..|actions| - 1]); }
  }

  lemma {:induction false} DeltaAppended(events: seq<StreamEvent>, text: string)
    requires OnlyDeltas(events) && text != ""
    ensures OnlyDeltas(events + [Delta(text)]) && DeltaText(events + [Delta(text)]) == DeltaText(events) + text
  {
    assert (events + [Delta(text)])[..|events|] == events;
  }

  lemma {:induction false} PlayText(actions: seq<Action>)
    requires Stop(actions) == |actions|
    ensures var m := Play(START, actions);
      m.Running? && OnlyDeltas(m.events) && DeltaText(m.events) == Emitted(actions)
    decreases |actions|
  {
    if actions != [] {
      var init, last := actions[..|actions| - 1], actions[|actions| - 1];
      PlayText(init);
      if last.Emit? && last.text != "" { DeltaAppended(Play(START, init).events, last.text); }
    }
  }

  /** Up to the point where it stops, a machine has emitted the text so far. */
  lemma {:induction false} PlayRunning(actions: seq<Action>)
    requires Stop(actions) == |actions|
    ensures var m := Play(START, actions);
      && m.Running? && OnlyDeltas(m.events) && DeltaText(m.events) == Emitted(actions)
      && m.input == LastInput(actions) && m.output == LastOutput(actions)
  {
    PlayText(actions);
    PlayCounts(actions);
  }

  lemma {:induction false} PlayDeltas(actions: seq<Action>)
    requires Stop(actions) == |actions|
    ensures var m := Play(START, actions); m.Running? && m.events == EmittedDeltas(actions)
    decreases |actions|
  {
    if actions != [] { PlayDeltas(actions[..|actions| - 1]); }
  }

  lemma {:induction false} CompletionText(events: seq<StreamEvent>, e: StreamEvent)
    requires e.delta.None?
    ensures DeltaText(events + [e]) == DeltaText(events)
  {
    assert (events + [e])[..|events|] == events;
  }

  lemma {:induction false} StopOfPrefix(actions: seq<Action>)
    ensures Stop(actions[..Stop(actions)]) == Stop(actions)
  {
  }

  lemma {:induction false} PlayNext(actions: seq<Action>, k: nat)
    requires k < |actions|
    ensures Play(START, actions[..k + 1]) == Step(Play(START, actions[..k]), actions[k])
  {
    assert actions[..k + 1][..k] == actions[..k];
  }

  lemma {:induction false} PlayPast(actions: seq<Action>, k: nat)
    requires k <= |actions| && Play(START, actions[..k]).Stopped?
    ensures Play(START, actions) == Play(START, actions[..k])
  {
    assert actions == actions[..k] + actions[k..];
    PlayAppend(START, actions[..k], actions[k..]);
    StoppedStays(Play(START, actions[..k]), actions[k..]);
  }

  /** What happens at the stop and after it. */
  lemma {:induction false} PlayToStop(actions: seq<Action>)
    ensures var k := Stop(actions);
      Play(START, actions)
        == if k == |actions| then Play(START, actions[..k]) else Step(Play(START, actions[..k]), actions[k])
  {
    var k := Stop(actions);
    if k == |actions| {
      assert actions[..k] == actions;
    } else {
      PlayNext(actions, k);
      PlayPast(actions, k + 1);
    }
  }

  lemma {:induction false} ResultMeaning(m: Machine, a: Option<Action>, end: End)
    requires m.Running? && OnlyDeltas(m.events)
    requires a.Some? ==> a.value.Finish? || a.value.Fail?
    ensures var feed := Result(if a.Some? then Step(m, a.value) else m, end);
      && DeltasThenCompletion(feed) && DeltaText(feed.events) == DeltaText(m.events)
      && (feed.error.None? <==> a.Some? && a.value.Finish?)
      && feed.events == m.events + (if feed.error.None? then [StreamEvent(None, true, m.input, m.output)] else [])
      && (a.None? ==> feed.error == Some(EndReason(end)))
      && (a.Some? && a.value.Fail? ==> feed.error == Some(INVALID))
  {
    CompletionText(m.events, Completion(m.input, m.output));
  }

  /** Every machine yields deltas and then exactly one completion, or fails; it completes
      exactly when a finish comes before any failure, the deltas are the texts emitted up to
      there, one by one, and the completion carries the last reported token counts. */
  lemma {:induction false} MachineMeaning(actions: seq<Action>, end: End)
    ensures var feed := Result(Play(START, actions), end);
            var k := Stop(actions);
      && DeltasThenCompletion(feed)
      && DeltaText(feed.events) == Emitted(actions[..k])
      && (feed.error.None? <==> k < |actions| && actions[k].Finish?)
      && feed.events == EmittedDeltas(actions[..k]) + (if feed.error.None? then
           [StreamEvent(None, true, LastInput(actions[..k]), LastOutput(actions[..k]))] else [])
      && (feed.error.Some? ==> feed.error == Some(if k == |actions| then EndReason(end) else INVALID))
      && (k == |actions| ==> feed.error.value == match end
            case Closed => "invalid_upstream_response"
            case TimedOut => "upstream_timeout"
            case NetworkFailed => "upstream_network_error")
  {
    var k := Stop(actions);
    StopOfPrefix(actions);
    PlayRunning(actions[..k]);
    PlayDeltas(actions[..k]);
    PlayToStop(actions);
    ResultMeaning(Play(START, actions[..k]), if k == |actions| then None else Some(actions[k]), end);
  }

  // ---------------------------------------------------------------------- the four machines

  function Actions<F>(frames: seq<F>, act: F -> seq<Action>): seq<Action>
    decreases |frames|
  {
    if frames == [] then [] else Actions(frames[..|frames| - 1], act) + act(frames[|frames| - 1])
  }

  lemma {:induction false} ActionsNext<F>(frames: seq<F>, act: F -> seq<Action>, i: nat)
    requires i < |frames|
    ensures Play(START, Actions(frames[..i + 1], act)) == Play(Play(START, Actions(frames[..i], act)), act(frames[i]))
  {
    assert frames[..i + 1][..i] == frames[..i];
    PlayAppend(START, Actions(frames[..i], act), act(frames[i]));
  }

  lemma {:induction false} StoppedEarly<F>(frames: seq<F>, act: F -> seq<Action>, i: nat)
    requires i <= |frames| && Play(START, Actions(frames[..i], act)).Stopped?
    ensures Play(START, Actions(frames, act)) == Play(START, Actions(frames[..i], act))
    decreases |frames| - i
  {
    if i == |frames| {
      assert frames[..i] == frames;
    } else {
      ActionsNext(frames, act, i);
      StoppedStays(Play(START, Actions(frames[..i], act)), act(frames[i]));
      StoppedEarly(frames, act, i + 1);
    }
  }

  /** One more frame; a machine that it stops gives the result of all the frames. */
  lemma {:induction false} Advance<F>(frames: seq<F>, act: F -> seq<Action>, i: nat, m: Machine, next: Machine)
    requires i < |frames| && m == Play(START, Actions(frames[..i], act)) && next == Play(m, act(frames[i]))
    ensures next == Play(START, Actions(frames[..i + 1], act))
    ensures next.Stopped? ==> Play(START, Actions(frames, act)) == next
  {
    ActionsNext(frames, act, i);
    if next.Stopped? { StoppedEarly(frames, act, i + 1); }
  }

  lemma {:induction false} PlayOne(m: Machine, a: Action)
    ensures Play(m, [a]) == Step(m, a)
  {
    assert [a][..0] == [];
  }

  lemma {:induction false} PlayTwo(m: Machine, a: Action, b: Action)
    ensures Play(m, [a, b]) == Step(Step(m, a), b)
  {
    assert [a, b][..1] == [a];
    PlayOne(m, a);
  }

  lemma {:induction false} PlayThree(m: Machine, a: Action, b: Action, c: Action)
    ensures Play(m, [a, b, c]) == Step(Step(Step(m, a), b), c)
  {
    assert [a, b, c][..2] == [a, b];
    PlayTwo(m, a, b);
  }

  /** A frame of an OpenAI-compatible stream: the end mark, one that cannot be used, or a
      chunk with the usage and the text found in it. */
  datatype OpenAiFrame = DoneMark | OpenAiBad | Chunk(usage: Option<(int, int)>, content: Option<string>)

  function OpenAiActions(f: OpenAiFrame): seq<Action> {
    match f
    case DoneMark => [Finish]
    case OpenAiBad => [Fail]
    case Chunk(usage, content) =>
      (if usage.Some? then [SetInput(usage.value.0), SetOutput(usage.value.1)] else [])
      + if content.Some? then [Emit(content.value)] else []
  }

  function OpenAiNext(m: Machine, f: OpenAiFrame): Machine {
    match f
    case DoneMark => Step(m, Finish)
    case OpenAiBad => Step(m, Fail)
    case Chunk(usage, content) =>
      var n := if usage.Some? then Step(Step(m, SetInput(usage.value.0)), SetOutput(usage.value.1)) else m;
      if content.Some? then Step(n, Emit(content.value)) else n
  }

  lemma {:induction false} OpenAiMeans(m: Machine, f: OpenAiFrame)
    ensures Play(m, OpenAiActions(f)) == OpenAiNext(m, f)
  {
    if f.Chunk? {
      var first := if f.usage.Some? then [SetInput(f.usage.value.0), SetOutput(f.usage.value.1)] else [];
      var second := if f.content.Some? then [Emit(f.content.value)] else [];
      PlayAppend(m, first, second);
      if f.usage.Some? { PlayTwo(m, SetInput(f.usage.value.0), SetOutput(f.usage.value.1)); }
      if f.content.Some? { PlayOne(Play(m, first), Emit(f.content.value)); }
    } else {
      PlayOne(m, OpenAiActions(f)[0]);
    }
  }

  lemma {:induction false} OpenAiAdvances(frames: seq<OpenAiFrame>, i: nat, m: Machine)
    requires i < |frames| && m == Play(START, Actions(frames[..i], OpenAiActions))
    ensures OpenAiNext(m, frames[i]) == Play(START, Actions(frames[..i + 1], OpenAiActions))
    ensures OpenAiNext(m, frames[i]).Stopped? ==>
      Play(START, Actions(frames, OpenAiActions)) == OpenAiNext(m, frames[i])
  {
    OpenAiMeans(m, frames[i]);
    Advance(frames, OpenAiActions, i, m, OpenAiNext(m, frames[i]));
  }

  /** One frame; `last` is the whole stream if the frame ends it. */
  method ReadChunk(input: Option<int>, output: Option<int>, events: seq<StreamEvent>, frame: OpenAiFrame)
    returns (input': Option<int>, output': Option<int>, events': seq<StreamEvent>, last: Option<Feed>)
    ensures OpenAiNext(Running(input, output, events), frame)
         == if last.Some? then Stopped(last.value) else Running(input', output', events')
  {
    input', output', events', last := input, output, events, None;
    if frame.DoneMark? { return input, output, events, Some(Feed(events + [Completion(input, output)], None)); }
    if frame.OpenAiBad? { return input, output, events, Some(Feed(events, Some(INVALID))); }
    if frame.usage.Some? { input', output' := Some(frame.usage.value.0), Some(frame.usage.value.1); }
    if frame.content.Some? && frame.content.value != "" { events' := events + [Delta(frame.content.value)]; }
  }

  method OpenAiEvents(frames: seq<OpenAiFrame>, end: End) returns (feed: Feed)
    ensures feed == Result(Play(START, Actions(frames, OpenAiActions)), end)
  {
    var input: Option<int>, output: Option<int>, events: seq<StreamEvent> := None, None, [];
    for i := 0 to |frames|
      invariant Running(input, output, events) == Play(START, Actions(frames[..i], OpenAiActions))
    {
      ghost var m := Running(input, output, events);
      OpenAiAdvances(frames, i, m);
      var last: Option<Feed>;
      input, output, events, last := ReadChunk(input, output, events, frames[i]);
      if last.Some? { return last.value; }
    }
    assert frames[..|frames|] == frames;
    return Feed(events, Some(EndReason(end)));
  }

  /** An Anthropic frame by its event name; `Other` is any it passes over. */
  datatype AnthropicFrame =
    | MessageStart(inputTokens: Option<int>)
    | TextDelta(text: string)
    | MessageDelta(outputTokens: Option<int>)
    | MessageStop
    | ErrorFrame
    | AnthropicBad
    | Other

  function AnthropicActions(f: AnthropicFrame): seq<Action> {
    match f
    case MessageStart(tokens) => if tokens.Some? then [SetInput(tokens.value)] else []
    case TextDelta(text) => [Emit(text)]
    case MessageDelta(tokens) => if tokens.Some? then [SetOutput(tokens.value)] else []
    case MessageStop => [Finish]
    case ErrorFrame => [Fail]
    case AnthropicBad => [Fail]
    case Other => []
  }

  function AnthropicNext(m: Machine, f: AnthropicFrame): Machine {
    match f
    case MessageStart(tokens) => if tokens.Some? then Step(m, SetInput(tokens.value)) else m
    case TextDelta(text) => Step(m, Emit(text))
    case MessageDelta(tokens) => if tokens.Some? then Step(m, SetOutput(tokens.value)) else m
    case MessageStop => Step(m, Finish)
    case ErrorFrame => Step(m, Fail)
    case AnthropicBad => Step(m, Fail)
    case Other => m
  }

  lemma {:induction false} AnthropicMeans(m: Machine, f: AnthropicFrame)
    ensures Play(m, AnthropicActions(f)) == AnthropicNext(m, f)
  {
    if AnthropicActions(f) != [] { PlayOne(m, AnthropicActions(f)[0]); }
  }

  lemma {:induction false} AnthropicAdvances(frames: seq<AnthropicFrame>, i: nat, m: Machine)
    requires i < |frames| && m == Play(START, Actions(frames[..i], AnthropicActions))
    ensures AnthropicNext(m, frames[i]) == Play(START, Actions(frames[..i + 1], AnthropicActions))
    ensures AnthropicNext(m, frames[i]).Stopped? ==>
      Play(START, Actions(frames, AnthropicActions)) == AnthropicNext(m, frames[i])
  {
    AnthropicMeans(m, frames[i]);
    Advance(frames, AnthropicActions, i, m, AnthropicNext(m, frames[i]));
  }

  /** One frame; `last` is the whole stream if the frame ends it. */
  method ReadAnthropic(input: Option<int>, output: Option<int>, events: seq<StreamEvent>, frame: AnthropicFrame)
    returns (input': Option<int>, output': Option<int>, events': seq<StreamEvent>, last: Option<Feed>)
    ensures AnthropicNext(Running(input, output, events), frame)
         == if last.Some? then Stopped(last.value) else Running(input', output', events')
  {
    input', output', events', last := input, output, events, None;
    if frame.MessageStart? {
      if frame.inputTokens.Some? { input' := frame.inputTokens; }
    } else if frame.TextDelta? {
      if frame.text != "" { events' := events + [Delta(frame.text)]; }
    } else if frame.MessageDelta? {
      if frame.outputTokens.Some? { output' := frame.outputTokens; }
    } else if frame.MessageStop? {
      last := Some(Feed(events + [Completion(input, output)], None));
    } else if !frame.Other? {
      last := Some(Feed(events, Some(INVALID)));
    }
  }

  method AnthropicEvents(frames: seq<AnthropicFrame>, end: End) returns (feed: Feed)
    ensures feed == Result(Play(START, Actions(frames, AnthropicActions)), end)
  {
    var input: Option<int>, output: Option<int>, events: seq<StreamEvent> := None, None, [];
    for i := 0 to |frames|
      invariant Running(input, output, events) == Play(START, Actions(frames[..i], AnthropicActions))
    {
      ghost var m := Running(input, output, events);
      AnthropicAdvances(frames, i, m);
      var last: Option<Feed>;
      input, output, events, last := ReadAnthropic(input, output, events, frames[i]);
      if last.Some? { return last.value; }
    }
    assert frames[..|frames|] == frames;
    return Feed(events, Some(EndReason(end)));
  }

  /** An Ollama line; `counts` is absent if the counts of a last line are no numbers. */
  datatype OllamaLine = Blank | OllamaBad | Line(content: Option<string>, done: bool, counts: Option<(int, int)>)

  function OllamaActions(f: OllamaLine): seq<Action> {
    match f
    case Blank => []
    case OllamaBad => [Fail]
    case Line(content, done, counts) =>
      (if content.Some? then [Emit(content.value)] else [])
      + if !done then []
        else if counts.Some? then [SetInput(counts.value.0), SetOutput(counts.value.1), Finish]
        else [Fail]
  }

  function OllamaNext(m: Machine, f: OllamaLine): Machine {
    match f
    case Blank => m
    case OllamaBad => Step(m, Fail)
    case Line(content, done, counts) =>
      var n := if content.Some? then Step(m, Emit(content.value)) else m;
      if !done then n
      else if counts.Some? then Step(Step(Step(n, SetInput(counts.value.0)), SetOutput(counts.value.1)), Finish)
      else Step(n, Fail)
  }

  lemma {:induction false} OllamaMeans(m: Machine, f: OllamaLine)
    ensures Play(m, OllamaActions(f)) == OllamaNext(m, f)
  {
    if f.Line? {
      var first := if f.content.Some? then [Emit(f.content.value)] else [];
      var second :=
        if !f.done then []
        else if f.counts.Some? then [SetInput(f.counts.value.0), SetOutput(f.counts.value.1), Finish]
        else [Fail];
      PlayAppend(m, first, second);
      if f.content.Some? { PlayOne(m, Emit(f.content.value)); }
      var n := Play(m, first);
      if f.counts.Some? { PlayThree(n, SetInput(f.counts.value.0), SetOutput(f.counts.value.1), Finish); }
      PlayOne(n, Fail);
    } else {
      PlayOne(m, Fail);
    }
  }

  lemma {:induction false} OllamaAdvances(lines: seq<OllamaLine>, i: nat, m: Machine)
    requires i < |lines| && m == Play(START, Actions(lines[..i], OllamaActions))
    ensures OllamaNext(m, lines[i]) == Play(START, Actions(lines[..i + 1], OllamaActions))
    ensures OllamaNext(m, lines[i]).Stopped? ==>
      Play(START, Actions(lines, OllamaActions)) == OllamaNext(m, lines[i])
  {
    OllamaMeans(m, lines[i]);
    Advance(lines, OllamaActions, i, m, OllamaNext(m, lines[i]));
  }

  method ReadLine(events: seq<StreamEvent>, line: OllamaLine) returns (events': seq<StreamEvent>, last: Option<Feed>)
    ensures OllamaNext(Running(None, None, events), line)
         == if last.Some? then Stopped(last.value) else Running(None, None, events')
  {
    events', last := events, None;
    if line.Blank? { return; }
    if line.OllamaBad? { return events, Some(Feed(events, Some(INVALID))); }
    if line.content.Some? && line.content.value != "" { events' := events + [Delta(line.content.value)]; }
    if line.done {
      last := Some(if line.counts.None? then Feed(events', Some(INVALID))
                   else Feed(events' + [Completion(Some(line.counts.value.0), Some(line.counts.value.1))], None));
    }
  }

  method OllamaEvents(lines: seq<OllamaLine>, end: End) returns (feed: Feed)
    ensures feed == Result(Play(START, Actions(lines, OllamaActions)), end)
  {
    var events: seq<StreamEvent> := [];
    for i := 0 to |lines|
      invariant Running(None, None, events) == Play(START, Actions(lines[..i], OllamaActions))
    {
      ghost var m := Running(None, None, events);
      OllamaAdvances(lines, i, m);
      var last: Option<Feed>;
      events, last := ReadLine(events, lines[i]);
      if last.Some? { return last.value; }
    }
    assert lines[..|lines|] == lines;
    return Feed(events, Some(EndReason(end)));
  }

  /** A Gemini frame.  The stream has no end mark: it is complete when the response closes
      after at least one frame. */
  datatype GeminiFrame = GeminiBad | Parts(usage: Option<(int, int)>, texts: seq<string>)

  function Emits(texts: seq<string>): seq<Action> { seq(|texts|, k requires 0 <= k < |texts| => Emit(texts[k])) }

  function GeminiActions(f: GeminiFrame): seq<Action> {
    match f
    case GeminiBad => [Fail]
    case Parts(usage, texts) =>
      (if usage.Some? then [SetInput(usage.value.0), SetOutput(usage.value.1)] else []) + Emits(texts)
  }

  function GeminiStream(frames: seq<GeminiFrame>, end: End): seq<Action> {
    Actions(frames, GeminiActions) + if end.Closed? && frames != [] then [Finish] else []
  }

  method EmitTexts(ghost m: Machine, events: seq<StreamEvent>, texts: seq<string>) returns (more: seq<StreamEvent>)
    requires m.Running? && m.events == events
    ensures Play(m, Emits(texts)) == m.(events := more)
  {
    more := events;
    for k := 0 to |texts|
      invariant Play(m, Emits(texts)[..k]) == m.(events := more)
    {
      assert Emits(texts)[..k + 1][..k] == Emits(texts)[..k];
      if texts[k] != "" { more := more + [Delta(texts[k])]; }
    }
    assert Emits(texts)[..|texts|] == Emits(texts);
  }

  function GeminiUsage(m: Machine, usage: Option<(int, int)>): Machine {
    if usage.Some? then Step(Step(m, SetInput(usage.value.0)), SetOutput(usage.value.1)) else m
  }

  lemma {:induction false} GeminiMeans(m: Machine, f: GeminiFrame)
    ensures Play(m, GeminiActions(f))
         == if f.GeminiBad? then Step(m, Fail) else Play(GeminiUsage(m, f.usage), Emits(f.texts))
  {
    if f.GeminiBad? {
      PlayOne(m, Fail);
    } else {
      PlayAppend(m, if f.usage.Some? then [SetInput(f.usage.value.0), SetOutput(f.usage.value.1)] else [],
                 Emits(f.texts));
      if f.usage.Some? { PlayTwo(m, SetInput(f.usage.value.0), SetOutput(f.usage.value.1)); }
    }
  }

  method ReadParts(
    input: Option<int>, output: Option<int>, events: seq<StreamEvent>, usage: Option<(int, int)>, texts: seq<string>)
    returns (input': Option<int>, output': Option<int>, events': seq<StreamEvent>)
    ensures Running(input', output', events') == Play(GeminiUsage(Running(input, output, events), usage), Emits(texts))
  {
    input', output' := input, output;
    if usage.Some? { input', output' := Some(usage.value.0), Some(usage.value.1); }
    events' := EmitTexts(Running(input', output', events), events, texts);
  }

  lemma {:induction false} GeminiEnds(frames: seq<GeminiFrame>, end: End, m: Machine)
    requires m == Play(START, Actions(frames, GeminiActions))
    ensures Result(Play(START, GeminiStream(frames, end)), end) ==
      if m.Stopped? then m.feed
      else if end.Closed? && frames != [] then Feed(m.events + [Completion(m.input, m.output)], None)
      else Feed(m.events, Some(EndReason(end)))
  {
    if end.Closed? && frames != [] {
      PlayAppend(START, Actions(frames, GeminiActions), [Finish]);
      PlayOne(m, Finish);
    } else {
      assert GeminiStream(frames, end) == Actions(frames, GeminiActions);
    }
  }

  method GeminiEvents(frames: seq<GeminiFrame>, end: End) returns (feed: Feed)
    ensures feed == Result(Play(START, GeminiStream(frames, end)), end)
  {
    var input: Option<int>, output: Option<int>, events: seq<StreamEvent>, sawFrame := None, None, [], false;
    for i := 0 to |frames|
      invariant Running(input, output, events) == Play(START, Actions(frames[..i], GeminiActions))
      invariant sawFrame == (i > 0)
    {
      ghost var m := Running(input, output, events);
      GeminiMeans(m, frames[i]);
      Advance(frames, GeminiActions, i, m, Play(m, GeminiActions(frames[i])));
      if frames[i].GeminiBad? {
        GeminiEnds(frames, end, Step(m, Fail));
        return Feed(events, Some(INVALID));
      }
      sawFrame := true;
      input, output, events := ReadParts(input, output, events, frames[i].usage, frames[i].texts);
    }
    assert frames[..|frames|] == frames;
    GeminiEnds(frames, end, Running(input, output, events));
    if end.Closed? && sawFrame { return Feed(events + [Completion(input, output)], None); }
    return Feed(events, Some(EndReason(end)));
  }

  // ------------------------------------------------------- what the frames of a provider mean

  function Texts<F>(frames: seq<F>, text: F -> string): string
    decreases |frames|
  {
    if frames == [] then "" else Texts(frames[..|frames| - 1], text) + text(frames[|frames| - 1])
  }

  /** The count in the last frame that has one. */
  function LastCount<F>(frames: seq<F>, count: F -> Option<int>): Option<int>
    decreases |frames|
  {
    if frames == [] then None
    else if count(frames[|frames| - 1]).Some? then count(frames[|frames| - 1])
    else LastCount(frames[..|frames| - 1], count)
  }

  ghost predicate Quiet(actions: seq<Action>) {
    forall k :: 0 <= k < |actions| ==> !actions[k].Finish? && !actions[k].Fail?
  }

  /** What actions that do not stop a machine say. */
  ghost predicate Says(actions: seq<Action>, text: string, input: Option<int>, output: Option<int>) {
    Quiet(actions) && Emitted(actions) == text && LastInput(actions) == input && LastOutput(actions) == output
  }

  function Later(first: Option<int>, second: Option<int>): Option<int> { if second.Some? then second else first }

  lemma {:induction false} SaysBoth(a: seq<Action>, b: seq<Action>)
    requires Quiet(a) && Quiet(b)
    ensures Says(a + b, Emitted(a) + Emitted(b), Later(LastInput(a), LastInput(b)), Later(LastOutput(a), LastOutput(b)))
    decreases |b|
  {
    if b == [] {
      assert a + b == a;
    } else {
      assert (a + b)[..|a + b| - 1] == a + b[..|b| - 1];
      SaysBoth(a, b[..|b| - 1]);
      assert forall k :: 0 <= k < |b| ==> (a + b)[|a| + k] == b[k];
    }
  }

  lemma {:induction false} SaysOne(a: Action)
    requires !a.Finish? && !a.Fail?
    ensures Says([a], if a.Emit? then a.text else "",
                 if a.SetInput? then Some(a.tokens) else None, if a.SetOutput? then Some(a.tokens) else None)
  {
    assert [a][..0] == [];
  }

  lemma {:induction false} SaysCounts(input: int, output: int)
    ensures Says([SetInput(input), SetOutput(output)], "", Some(input), Some(output))
  {
    SaysOne(SetInput(input));
    SaysOne(SetOutput(output));
    SaysBoth([SetInput(input)], [SetOutput(output)]);
    assert [SetInput(input)] + [SetOutput(output)] == [SetInput(input), SetOutput(output)];
  }

  lemma {:induction false} FramesSay<F>(
      frames: seq<F>, act: F -> seq<Action>, text: F -> string, input: F -> Option<int>, output: F -> Option<int>)
    requires forall k :: 0 <= k < |frames| ==>
      Says(act(frames[k]), text(frames[k]), input(frames[k]), output(frames[k]))
    ensures Says(Actions(frames, act), Texts(frames, text), LastCount(frames, input), LastCount(frames, output))
    decreases |frames|
  {
    if frames != [] {
      var init, last := frames[..|frames| - 1], frames[|frames| - 1];
      assert forall k :: 0 <= k < |init| ==> init[k] == frames[k];
      FramesSay(init, act, text, input, output);
      SaysBoth(Actions(init, act), act(last));
    }
  }

  /** A stream of which all that was said is known, and what it stops with, if it does. */
  ghost predicate Means(feed: Feed, text: string, input: Option<int>, output: Option<int>, error: Option<string>) {
    && DeltasThenCompletion(feed) && DeltaText(feed.events) == text && feed.error == error
    && (error.None? ==> feed.events[|feed.events| - 1] == StreamEvent(None, true, input, output))
  }

  lemma {:induction false} StopsAfter(said: seq<Action>, rest: seq<Action>)
    requires Quiet(said) && (rest == [] || rest[0].Finish? || rest[0].Fail?)
    ensures Stop(said + rest) == |said| && (said + rest)[..|said|] == said
  {
    var all := said + rest;
    assert forall k :: 0 <= k < |said| ==> all[k] == said[k];
    if rest != [] { assert all[|said|] == rest[0]; }
    if Stop(all) < |said| { assert false; }
  }

  /** A machine that says something and then finishes, fails or is left. */
  lemma {:induction false} SaidThenStops(said: seq<Action>, stop: Option<Action>, end: End)
    requires Quiet(said) && (stop.Some? ==> stop.value.Finish? || stop.value.Fail?)
    ensures Means(Result(Play(START, said + if stop.Some? then [stop.value] else []), end), Emitted(said),
                  LastInput(said), LastOutput(said),
                  if stop.None? then Some(EndReason(end)) else if stop.value.Finish? then None else Some(INVALID))
  {
    var rest := if stop.Some? then [stop.value] else [];
    StopsAfter(said, rest);
    MachineMeaning(said + rest, end);
  }

  /** Frames up to `n` go on; frame `n`, if there is one, says what `said` says and stops. */
  lemma {:induction false} FramesThenStop<F>(
      frames: seq<F>, act: F -> seq<Action>, n: nat, said: seq<Action>, stop: Option<Action>, end: End)
    requires n <= |frames| && Quiet(Actions(frames[..n], act)) && Quiet(said)
    requires stop.Some? ==> stop.value.Finish? || stop.value.Fail?
    requires if n < |frames| then stop.Some? && act(frames[n]) == said + [stop.value] else stop.None? && said == []
    ensures var before := Actions(frames[..n], act);
      Means(Result(Play(START, Actions(frames, act)), end), Emitted(before) + Emitted(said),
            Later(LastInput(before), LastInput(said)), Later(LastOutput(before), LastOutput(said)),
            if stop.None? then Some(EndReason(end)) else if stop.value.Finish? then None else Some(INVALID))
  {
    var before := Actions(frames[..n], act);
    SaysBoth(before, said);
    SaidThenStops(before + said, stop, end);
    if n < |frames| {
      assert frames[..n + 1][..n] == frames[..n];
      assert Actions(frames[..n + 1], act) == before + said + [stop.value];
      SaidStopped(before + said, stop.value);
      StoppedEarly(frames, act, n + 1);
    } else {
      assert frames[..n] == frames && before + said + [] == before;
    }
  }

  lemma {:induction false} SaidStopped(said: seq<Action>, stop: Action)
    requires Quiet(said) && (stop.Finish? || stop.Fail?)
    ensures Play(START, said + [stop]).Stopped?
  {
    StopsAfter(said, []);
    assert said + [] == said;
    PlayRunning(said);
    assert (said + [stop])[..|said|] == said;
  }

  function OrEmpty(text: Option<string>): string { if text.Some? then text.value else "" }

  function Count(usage: Option<(int, int)>, first: bool): Option<int> {
    if usage.None? then None else Some(if first then usage.value.0 else usage.value.1)
  }

  function OpenAiText(f: OpenAiFrame): string { if f.Chunk? then OrEmpty(f.content) else "" }
  function OpenAiInput(f: OpenAiFrame): Option<int> { if f.Chunk? then Count(f.usage, true) else None }
  function OpenAiOutput(f: OpenAiFrame): Option<int> { if f.Chunk? then Count(f.usage, false) else None }

  lemma {:induction false} ChunkSays(f: OpenAiFrame)
    requires f.Chunk?
    ensures Says(OpenAiActions(f), OpenAiText(f), OpenAiInput(f), OpenAiOutput(f))
  {
    var counts := if f.usage.Some? then [SetInput(f.usage.value.0), SetOutput(f.usage.value.1)] else [];
    var emits := if f.content.Some? then [Emit(f.content.value)] else [];
    if f.usage.Some? { SaysCounts(f.usage.value.0, f.usage.value.1); }
    if f.content.Some? { SaysOne(Emit(f.content.value)); }
    SaysBoth(counts, emits);
  }

  /** An OpenAI stream says the contents of its chunks and counts what the last usage counts,
      up to the end mark, without which it fails. */
  lemma {:induction false} OpenAiMeaning(frames: seq<OpenAiFrame>, end: End, n: nat)
    requires n <= |frames| && (n < |frames| ==> !frames[n].Chunk?)
    requires forall k :: 0 <= k < n ==> frames[k].Chunk?
    ensures Means(Result(Play(START, Actions(frames, OpenAiActions)), end), Texts(frames[..n], OpenAiText),
                  LastCount(frames[..n], OpenAiInput), LastCount(frames[..n], OpenAiOutput),
                  if n == |frames| then Some(EndReason(end)) else if frames[n].DoneMark? then None else Some(INVALID))
  {
    forall k | 0 <= k < n
      ensures Says(OpenAiActions(frames[..n][k]), OpenAiText(frames[..n][k]), OpenAiInput(frames[..n][k]),
                   OpenAiOutput(frames[..n][k]))
    {
      ChunkSays(frames[k]);
    }
    FramesSay(frames[..n], OpenAiActions, OpenAiText, OpenAiInput, OpenAiOutput);
    FramesThenStop(frames, OpenAiActions, n, [],
                   if n == |frames| then None else Some(if frames[n].DoneMark? then Finish else Fail), end);
  }

  predicate AnthropicStops(f: AnthropicFrame) { f.MessageStop? || f.ErrorFrame? || f.AnthropicBad? }

  function AnthropicText(f: AnthropicFrame): string { if f.TextDelta? then f.text else "" }
  function AnthropicInput(f: AnthropicFrame): Option<int> { if f.MessageStart? then f.inputTokens else None }
  function AnthropicOutput(f: AnthropicFrame): Option<int> { if f.MessageDelta? then f.outputTokens else None }

  lemma {:induction false} AnthropicSays(f: AnthropicFrame)
    requires !AnthropicStops(f)
    ensures Says(AnthropicActions(f), AnthropicText(f), AnthropicInput(f), AnthropicOutput(f))
  {
    var actions := AnthropicActions(f);
    if actions != [] {
      SaysOne(actions[0]);
      assert actions == [actions[0]];
    }
  }

  /** An Anthropic stream says its text deltas; the input is counted at a start, the output
      at a message delta, and it is complete at the stop. */
  lemma {:induction false} AnthropicMeaning(frames: seq<AnthropicFrame>, end: End, n: nat)
    requires n <= |frames| && (n < |frames| ==> AnthropicStops(frames[n]))
    requires forall k :: 0 <= k < n ==> !AnthropicStops(frames[k])
    ensures Means(Result(Play(START, Actions(frames, AnthropicActions)), end), Texts(frames[..n], AnthropicText),
                  LastCount(frames[..n], AnthropicInput), LastCount(frames[..n], AnthropicOutput),
                  if n == |frames| then Some(EndReason(end))
                  else if frames[n].MessageStop? then None else Some(INVALID))
  {
    forall k | 0 <= k < n
      ensures Says(AnthropicActions(frames[..n][k]), AnthropicText(frames[..n][k]), AnthropicInput(frames[..n][k]),
                   AnthropicOutput(frames[..n][k]))
    {
      AnthropicSays(frames[k]);
    }
    FramesSay(frames[..n], AnthropicActions, AnthropicText, AnthropicInput, AnthropicOutput);
    FramesThenStop(frames, AnthropicActions, n, [],
                   if n == |frames| then None else Some(if frames[n].MessageStop? then Finish else Fail), end);
  }

  predicate OllamaStops(f: OllamaLine) { f.OllamaBad? || (f.Line? && f.done) }

  function OllamaText(f: OllamaLine): string { if f.Line? then OrEmpty(f.content) else "" }
  function NoCount(f: OllamaLine): Option<int> { None }

  lemma {:induction false} OllamaSays(f: OllamaLine)
    requires !OllamaStops(f)
    ensures Says(OllamaActions(f), OllamaText(f), NoCount(f), NoCount(f))
  {
    if f.Line? && f.content.Some? {
      SaysOne(Emit(f.content.value));
      assert OllamaActions(f) == [Emit(f.content.value)];
    }
  }

  /** What the last line of an Ollama stream says before it stops it. */
  function LastLineSays(f: OllamaLine): seq<Action> {
    if !f.Line? then [] else
      (if f.content.Some? then [Emit(f.content.value)] else [])
      + if f.counts.Some? then [SetInput(f.counts.value.0), SetOutput(f.counts.value.1)] else []
  }

  lemma {:induction false} LastLine(f: OllamaLine)
    requires OllamaStops(f)
    ensures OllamaActions(f) == LastLineSays(f) + [if f.Line? && f.counts.Some? then Finish else Fail]
    ensures f.Line? ==> Says(LastLineSays(f), OllamaText(f), Count(f.counts, true), Count(f.counts, false))
  {
    if f.Line? {
      var emits := if f.content.Some? then [Emit(f.content.value)] else [];
      var counts := if f.counts.Some? then [SetInput(f.counts.value.0), SetOutput(f.counts.value.1)] else [];
      if f.content.Some? { SaysOne(Emit(f.content.value)); }
      if f.counts.Some? { SaysCounts(f.counts.value.0, f.counts.value.1); }
      SaysBoth(emits, counts);
    }
  }

  lemma {:induction false} NoCounts(frames: seq<OllamaLine>)
    ensures LastCount(frames, NoCount) == None
    decreases |frames|
  {
    if frames != [] { NoCounts(frames[..|frames| - 1]); }
  }

  /** An Ollama stream says the contents of its lines up to the last one, which also counts. */
  lemma {:induction false} OllamaMeaning(lines: seq<OllamaLine>, end: End, n: nat)
    requires n <= |lines| && (n < |lines| ==> OllamaStops(lines[n]))
    requires forall k :: 0 <= k < n ==> !OllamaStops(lines[k])
    ensures var last := n < |lines| && lines[n].Line?;
      Means(Result(Play(START, Actions(lines, OllamaActions)), end),
            Texts(lines[..n], OllamaText) + (if last then OrEmpty(lines[n].content) else ""),
            if last then Count(lines[n].counts, true) else None, if last then Count(lines[n].counts, false) else None,
            if n == |lines| then Some(EndReason(end))
            else if last && lines[n].counts.Some? then None else Some(INVALID))
  {
    forall k | 0 <= k < n
      ensures Says(OllamaActions(lines[..n][k]), OllamaText(lines[..n][k]), NoCount(lines[..n][k]),
                   NoCount(lines[..n][k]))
    {
      OllamaSays(lines[k]);
    }
    FramesSay(lines[..n], OllamaActions, OllamaText, NoCount, NoCount);
    NoCounts(lines[..n]);
    if n == |lines| {
      FramesThenStop(lines, OllamaActions, n, [], None, end);
    } else {
      LastLine(lines[n]);
      FramesThenStop(lines, OllamaActions, n, LastLineSays(lines[n]),
                     Some(if lines[n].Line? && lines[n].counts.Some? then Finish else Fail), end);
    }
  }

  function GeminiText(f: GeminiFrame): string { if f.Parts? then Join("", f.texts) else "" }
  function GeminiInput(f: GeminiFrame): Option<int> { if f.Parts? then Count(f.usage, true) else None }
  function GeminiOutput(f: GeminiFrame): Option<int> { if f.Parts? then Count(f.usage, false) else None }

  lemma {:induction false} EmitsLast(init: seq<string>, last: string)
    ensures Emits(init + [last]) == Emits(init) + [Emit(last)]
  {
  }

  lemma {:induction false} EmitsSay(texts: seq<string>)
    ensures Says(Emits(texts), Join("", texts), None, None)
    decreases |texts|
  {
    if texts != [] {
      var init, last := texts[..|texts| - 1], texts[|texts| - 1];
      assert texts == init + [last];
      EmitsSay(init);
      SaysOne(Emit(last));
      SaysBoth(Emits(init), [Emit(last)]);
      EmitsLast(init, last);
      JoinAppend(init, last);
    }
  }

  lemma {:induction false} PartsSay(f: GeminiFrame)
    requires f.Parts?
    ensures Says(GeminiActions(f), GeminiText(f), GeminiInput(f), GeminiOutput(f))
  {
    EmitsSay(f.texts);
    var counts := if f.usage.Some? then [SetInput(f.usage.value.0), SetOutput(f.usage.value.1)] else [];
    if f.usage.Some? { SaysCounts(f.usage.value.0, f.usage.value.1); }
    SaysBoth(counts, Emits(f.texts));
  }

  lemma {:induction false} AllPartsSay(frames: seq<GeminiFrame>)
    requires forall k :: 0 <= k < |frames| ==> frames[k].Parts?
    ensures Says(Actions(frames, GeminiActions), Texts(frames, GeminiText), LastCount(frames, GeminiInput),
                 LastCount(frames, GeminiOutput))
  {
    forall k | 0 <= k < |frames|
      ensures Says(GeminiActions(frames[k]), GeminiText(frames[k]), GeminiInput(frames[k]), GeminiOutput(frames[k]))
    {
      PartsSay(frames[k]);
    }
    FramesSay(frames, GeminiActions, GeminiText, GeminiInput, GeminiOutput);
  }

  /** A Gemini frame that cannot be used ends the stream. */
  lemma {:induction false} GeminiBreaks(frames: seq<GeminiFrame>, end: End, n: nat)
    requires n < |frames| && frames[n].GeminiBad? && forall k :: 0 <= k < n ==> frames[k].Parts?
    ensures Means(Result(Play(START, GeminiStream(frames, end)), end), Texts(frames[..n], GeminiText),
                  LastCount(frames[..n], GeminiInput), LastCount(frames[..n], GeminiOutput), Some(INVALID))
  {
    AllPartsSay(frames[..n]);
    var before := Actions(frames[..n], GeminiActions);
    assert Actions(frames[..n + 1], GeminiActions) == before + [Fail] by { assert frames[..n + 1][..n] == frames[..n]; }
    SaidStopped(before, Fail);
    StoppedEarly(frames, GeminiActions, n + 1);
    GeminiEnds(frames, end, Play(START, before + [Fail]));
    SaidThenStops(before, Some(Fail), end);
  }

  /** Otherwise it says the parts of its frames and counts what the last usage counts; it is
      complete when the response closes after at least one frame. */
  lemma {:induction false} GeminiMeaning(frames: seq<GeminiFrame>, end: End)
    requires forall k :: 0 <= k < |frames| ==> frames[k].Parts?
    ensures Means(Result(Play(START, GeminiStream(frames, end)), end), Texts(frames, GeminiText),
                  LastCount(frames, GeminiInput), LastCount(frames, GeminiOutput),
                  if end.Closed? && frames != [] then None else Some(EndReason(end)))
  {
    AllPartsSay(frames);
    SaidThenStops(Actions(frames, GeminiActions), if end.Closed? && frames != [] then Some(Finish) else None, end);
  }

  // ---------------------------------------------------------------------- ProviderStream

  /** `position` counts the events handed out and `closes` the calls of the underlying
      close function. */
  class ProviderStream {
    const feed: Feed
    var position: nat
    var closed: bool
    var closes: nat

    ghost predicate Valid()
      reads this
    {
      position <= |feed.events| && closes == if closed then 1 else 0
    }

    /** The constructor takes the first event at once; without one the stream is closed
        and `failure` is the reason raised. */
    constructor (feed: Feed)
      ensures Valid() && this.feed == feed && position == 0
      ensures closed == (feed.events == [])
    {
      this.feed := feed;
      position, closed, closes := 0, false, 0;
      new;
      if feed.events == [] { Close(); }
    }

    method Close()
      requires Valid()
      modifies this`closed, this`closes
      ensures Valid() && closed && closes == 1
    {
      if closed { return; }
      closed := true;
      closes := closes + 1;
    }

    method Next() returns (e: Option<StreamEvent>)
      requires Valid()
      modifies this`position, this`closed, this`closes
      ensures Valid()
      ensures e == if old(position) < |feed.events| then Some(feed.events[old(position)]) else None
      ensures position == if e.Some? then old(position) + 1 else old(position)
      ensures e.None? ==> closed
      ensures e.Some? ==> closed == old(closed)
    {
      if position == |feed.events| {
        Close();
        return None;
      }
      e := Some(feed.events[position]);
      position := position + 1;
    }
  }
}
