/** Token counting (mixapi/adapters.py) and the corrective retry of structured output
    (mixapi/structured_output.py): the retry adds at most the 320 tokens reserved. */
module CorrectiveRetry {
  import opened Prelude
  import opened Text

  // ------------------------------------------------------------- counting words

  predicate WordEnds(s: string, i: nat)
    requires i < |s|
  {
    !IsSpace(s[i]) && (i + 1 == |s| || IsSpace(s[i + 1]))
  }

  /** The number of words of a text, counted where they end. */
  function Words(s: string): nat
    decreases |s|
  {
    if s == "" then 0 else (if WordEnds(s, 0) then 1 else 0) + Words(s[1..])
  }

  /** `count_tokens`. */
  function CountTokens(text: string): nat {
    if Words(text) > 0 then Words(text) else if text != "" then 1 else 0
  }

  /** The first word boundary at or after `i`. */
  function Skip(s: string, i: nat, space: bool): (r: nat)
    requires i <= |s|
    ensures i <= r <= |s| && (forall k :: i <= k < r ==> IsSpace(s[k]) == space) && (r < |s| ==> IsSpace(s[r]) != space)
    decreases |s| - i
  {
    if i == |s| || IsSpace(s[i]) != space then i else Skip(s, i + 1, space)
  }

  /** `str.split()` without arguments. */
  function Split(s: string): (r: seq<string>)
    decreases |s|
  {
    var start := Skip(s, 0, true);
    if start == |s| then [] else
      var end := Skip(s, start, false);
      [s[start..end]] + Split(s[end..])
  }

  lemma {:induction false} WordsSkip(s: string, n: nat, space: bool)
    requires n <= |s| && forall k :: 0 <= k < n ==> IsSpace(s[k]) == space
    ensures space || (n < |s| && !IsSpace(s[n])) ==> Words(s) == Words(s[n..])
    ensures !space && n > 0 && (n == |s| || IsSpace(s[n])) ==> Words(s) == 1 + Words(s[n..])
    decreases n
  {
    if n > 0 {
      assert forall k :: 0 <= k < n - 1 ==> s[1..][k] == s[k + 1];
      WordsSkip(s[1..], n - 1, space);
      assert s[1..][n - 1..] == s[n..];
      if n == 1 { assert s[1..][0..] == s[1..]; }
    } else {
      assert s[0..] == s;
    }
  }

  /** Everything up to the end of the first word counts one. */
  lemma {:induction false} FirstWord(s: string, start: nat, end: nat)
    requires start < end <= |s|
    requires forall k :: 0 <= k < start ==> IsSpace(s[k])
    requires forall k :: start <= k < end ==> !IsSpace(s[k])
    requires end < |s| ==> IsSpace(s[end])
    ensures Words(s) == 1 + Words(s[end..])
  {
    WordsSkip(s, start, true);
    var rest := s[start..];
    assert forall k :: 0 <= k < end - start ==> rest[k] == s[start + k];
    assert end < |s| ==> rest[end - start] == s[end];
    WordsSkip(rest, end - start, false);
    assert rest[end - start..] == s[end..];
  }

  lemma {:induction false} AllSpace(s: string)
    requires forall k :: 0 <= k < |s| ==> IsSpace(s[k])
    ensures Words(s) == 0
  {
    WordsSkip(s, |s|, true);
    assert s[|s|..] == "";
  }

  /** `Words` counts the parts that `split` returns, and tokens are these parts, or one if a
      text has none but is not empty. */
  lemma {:induction false} WordsCountSplit(s: string)
    ensures Words(s) == |Split(s)|
    ensures CountTokens(s) == if Split(s) != [] then |Split(s)| else if s == "" then 0 else 1
    decreases |s|
  {
    var start := Skip(s, 0, true);
    if start == |s| {
      AllSpace(s);
    } else {
      var end := Skip(s, start, false);
      FirstWord(s, start, end);
      WordsCountSplit(s[end..]);
    }
  }

  lemma {:induction false} WordsConcat(a: string, b: string)
    ensures Words(a + b) <= Words(a) + Words(b)
    ensures b == "" || IsSpace(b[0]) ==> Words(a + b) == Words(a) + Words(b)
    decreases |a|
  {
    if a == "" {
      assert a + b == b;
    } else {
      assert (a + b)[1..] == a[1..] + b;
      WordsConcat(a[1..], b);
    }
  }

  /** A space separates words exactly. */
  lemma {:induction false} WordsAcrossSpace(a: string, b: string)
    ensures Words(a + " " + b) == Words(a) + Words(b)
  {
    assert a + " " + b == a + (" " + b);
    assert (" " + b)[1..] == b;
    WordsConcat(a, " " + b);
  }

  lemma {:induction false} WordsAtMostHalf(s: string)
    ensures 2 * Words(s) <= |s| + 1
    decreases |s|
  {
    if |s| >= 2 {
      WordsAtMostHalf(s[1..]);
      if WordEnds(s, 0) {
        assert !WordEnds(s[1..], 0);
        WordsAtMostHalf(s[1..][1..]);
      }
    } else if |s| == 1 {
      assert s[1..] == "";
    }
  }

  // ------------------------------------------------------------ requests as text

  datatype Part = Part(kind: string, text: Option<string>) | OtherPart
  datatype Content = TextContent(text: string) | PartsContent(parts: seq<Part>) | OtherContent
  datatype Message = Message(content: Content) | NotAnObject
  datatype Input = TextInput(text: string) | ListInput(messages: seq<Message>) | OtherInput

  function PartChunks(parts: seq<Part>): seq<string>
    decreases |parts|
  {
    if parts == [] then [] else
      var last := parts[|parts| - 1];
      PartChunks(parts[..|parts| - 1]) +
      if last.Part? && (last.kind == "input_text" || last.kind == "text") && last.text.Some?
      then [last.text.value] else []
  }

  function MessageChunks(m: Message): seq<string> {
    if m.NotAnObject? then [] else
      match m.content
      case TextContent(text) => [text]
      case PartsContent(parts) => PartChunks(parts)
      case OtherContent => []
  }

  function Chunks(messages: seq<Message>): seq<string>
    decreases |messages|
  {
    if messages == [] then [] else Chunks(messages[..|messages| - 1]) + MessageChunks(messages[|messages| - 1])
  }

  function ExtractText(input: Input): string {
    match input
    case TextInput(text) => text
    case ListInput(messages) => Join(" ", Chunks(messages))
    case OtherInput => ""
  }

  // --------------------------------------------------------- validation failures

  const MAX_VALIDATION_FAILURES := 3
  const MAX_FAILURE_PATH_CHARS := 140
  const MAX_FAILURE_MESSAGE_CHARS := 64
  const CORRECTIVE_RETRY_TOKEN_RESERVE := 320

  datatype Failure = Failure(path: string, message: string)

  /** The JSON Schema keyword that failed; `Type` carries the accepted type names. */
  datatype Keyword = Type(names: seq<string>) | Required | Enum | Constant | AdditionalProperties | Another

  function FailureMessage(keyword: Keyword): string {
    match keyword
    case Type(names) => "expected" + " " + Join(" or ", names)
    case Required => "required property"
    case Enum => "value is not allowed"
    case Constant => "value does not match required constant"
    case AdditionalProperties => "additional property is not allowed"
    case Another => "schema constraint failed"
  }

  function Bounded(value: string, limit: nat): (r: string)
    requires limit >= 3
    ensures |r| <= limit && (|value| <= limit ==> r == value)
  {
    if |value| <= limit then value else value[..limit - 3] + "..."
  }

  /** What `validate_output` can report: at most three failures, each with a bounded
      path and a bounded message of the wording above, or the one for invalid JSON. */
  ghost predicate FromValidation(failures: seq<Failure>) {
    || failures == [Failure("$", "invalid JSON")]
    || (|failures| <= MAX_VALIDATION_FAILURES &&
        forall i :: 0 <= i < |failures| ==>
          |failures[i].path| <= MAX_FAILURE_PATH_CHARS &&
          exists keyword :: failures[i].message == Bounded(FailureMessage(keyword), MAX_FAILURE_MESSAGE_CHARS))
  }

  /** The fixed words of the instruction, written word by word. */
  const REQUEST := ["Return", "only", "JSON", "that", "satisfies", "the", "requested", "schema."]
  const CORRECT := ["Correct", "these", "validation", "failures:"]

  function Detail(f: Failure): string {
    Bounded(f.path, MAX_FAILURE_PATH_CHARS) + ":" + " " + Bounded(f.message, MAX_FAILURE_MESSAGE_CHARS)
  }

  function Details(failures: seq<Failure>): seq<string>
    decreases |failures|
  {
    if failures == [] then [] else Details(failures[..|failures| - 1]) + [Detail(failures[|failures| - 1])]
  }

  function Instruction(failures: seq<Failure>): string {
    var bounded := failures[..Min(|failures|, MAX_VALIDATION_FAILURES)];
    Join(" ", REQUEST) + " " + Join(" ", CORRECT) + " " + Join("; ", Details(bounded)) + "."
  }

  /** The input of `corrective_request`; every other field is copied. */
  function CorrectiveInput(input: Input, failures: seq<Failure>): Input {
    var messages :=
      match input
      case TextInput(text) => [Message(TextContent(text))]
      case ListInput(messages) => messages
      case OtherInput => [];
    ListInput(messages + [Message(TextContent(Instruction(failures)))])
  }

  // ------------------------------------------------------- what is counted and what is sent

  lemma {:induction false} PartChunksJoin(a: seq<Part>, b: seq<Part>)
    ensures PartChunks(a + b) == PartChunks(a) + PartChunks(b)
    decreases |b|
  {
    if b == [] {
      assert a + b == a;
    } else {
      assert (a + b)[..|a + b| - 1] == a + b[..|b| - 1];
      PartChunksJoin(a, b[..|b| - 1]);
    }
  }

  lemma {:induction false} ChunksLast(messages: seq<Message>, m: Message)
    ensures Chunks(messages + [m]) == Chunks(messages) + MessageChunks(m)
  {
    assert (messages + [m])[..|messages|] == messages;
  }

  lemma {:induction false} ThreeLists(x: seq<string>, y: seq<string>, z: seq<string>)
    ensures x + y + z == x + (y + z)
  {
  }

  lemma {:induction false} ChunksJoin(a: seq<Message>, b: seq<Message>)
    ensures Chunks(a + b) == Chunks(a) + Chunks(b)
    decreases |b|
  {
    if b == [] {
      assert a + b == a;
    } else {
      var init, last := b[..|b| - 1], b[|b| - 1];
      assert b == init + [last] && a + b == a + init + [last];
      ChunksJoin(a, init);
      ChunksLast(a + init, last);
      ChunksLast(init, last);
      ThreeLists(Chunks(a), Chunks(init), MessageChunks(last));
    }
  }

  /** The text of an input is all the texts of its messages and text parts in order, with
      spaces between them; nothing else of it counts. */
  lemma {:induction false} ExtractTextIs(a: seq<Message>, b: seq<Message>, p: seq<Part>, q: seq<Part>, part: Part,
                                         m: Message)
    ensures Chunks([]) == [] && Chunks(a + b) == Chunks(a) + Chunks(b)
    ensures Chunks([m]) ==
      if m.NotAnObject? || m.content.OtherContent? then []
      else if m.content.TextContent? then [m.content.text] else PartChunks(m.content.parts)
    ensures PartChunks([]) == [] && PartChunks(p + q) == PartChunks(p) + PartChunks(q)
    ensures PartChunks([part]) ==
      if part.Part? && part.kind in ["input_text", "text"] && part.text.Some? then [part.text.value] else []
    ensures ExtractText(ListInput(a)) == Join(" ", Chunks(a))
  {
    ChunksJoin(a, b);
    PartChunksJoin(p, q);
    assert [m][..0] == [] && [part][..0] == [];
  }

  /** A text within its limit stands as it is; a longer one is cut to the limit, marked by
      three dots. */
  predicate IsBounded(value: string, limit: nat, bounded: string)
    requires limit >= 3
  {
    if |value| <= limit then bounded == value
    else |bounded| == limit && bounded[..limit - 3] == value[..limit - 3] && bounded[limit - 3..] == "..."
  }

  lemma {:induction false} DetailsAre(failures: seq<Failure>, k: nat, path: string, message: string)
    requires k < |failures|
    requires IsBounded(failures[k].path, 140, path) && IsBounded(failures[k].message, 64, message)
    ensures |Details(failures)| == |failures| && Details(failures)[k] == path + ": " + message
    decreases |failures|
  {
    var n := |failures| - 1;
    if k < n {
      DetailsAre(failures[..n], k, path, message);
    } else {
      DetailsLength(failures[..n]);
      assert Bounded(failures[k].path, MAX_FAILURE_PATH_CHARS) == path;
      assert Bounded(failures[k].message, MAX_FAILURE_MESSAGE_CHARS) == message;
      assert path + ":" + " " + message == path + ": " + message;
    }
  }

  /** What the corrective message says of the first three failures: the bounded path and the
      bounded message of each. */
  ghost predicate SaysFailures(failures: seq<Failure>, details: seq<string>) {
    && |details| == (if |failures| > 3 then 3 else |failures|)
    && forall k :: 0 <= k < |details| ==> SaysFailure(failures[k], details[k])
  }

  ghost predicate SaysFailure(f: Failure, detail: string) {
    exists path, message ::
      IsBounded(f.path, 140, path) && IsBounded(f.message, 64, message) && detail == path + ": " + message
  }

  function KeptMessages(input: Input): seq<Message> {
    match input
    case TextInput(text) => [Message(TextContent(text))]
    case ListInput(messages) => messages
    case OtherInput => []
  }

  lemma {:induction false} BoundedIs(value: string, limit: nat)
    requires limit >= 3
    ensures IsBounded(value, limit, Bounded(value, limit))
  {
  }

  /** The corrected request keeps every message, or makes one of a text, and adds one that
      gives the fixed request and then the first three failures, in order. */
  lemma {:induction false} CorrectionSays(input: Input, failures: seq<Failure>) returns (details: seq<string>)
    ensures SaysFailures(failures, details)
    ensures CorrectiveInput(input, failures) == ListInput(
      KeptMessages(input)
      + [Message(TextContent(Join(" ", REQUEST) + " " + Join(" ", CORRECT) + " " + Join("; ", details) + "."))])
  {
    var first := failures[..Min(|failures|, MAX_VALIDATION_FAILURES)];
    details := Details(first);
    DetailsLength(first);
    forall k | 0 <= k < |details| ensures SaysFailure(failures[k], details[k]) {
      var path, message := Bounded(first[k].path, 140), Bounded(first[k].message, 64);
      BoundedIs(first[k].path, 140);
      BoundedIs(first[k].message, 64);
      DetailsAre(first, k, path, message);
    }
  }

  // ----------------------------------------------------------------- the reserve

  ghost predicate OneWord(w: string) { forall k :: 0 <= k < |w| ==> !IsSpace(w[k]) }

  lemma {:induction false} OneWordCounts(w: string)
    requires OneWord(w)
    ensures Words(w) == if w == "" then 0 else 1
    decreases |w|
  {
    if w != "" {
      assert forall k :: 0 <= k < |w[1..]| ==> w[1..][k] == w[k + 1];
      OneWordCounts(w[1..]);
      if |w| == 1 { assert w[1..] == ""; }
    }
  }

  lemma {:induction false} SentenceWords(ws: seq<string>)
    requires forall i :: 0 <= i < |ws| ==> OneWord(ws[i]) && ws[i] != ""
    ensures Words(Join(" ", ws)) == |ws|
    decreases |ws|
  {
    if |ws| == 1 {
      OneWordCounts(ws[0]);
    } else if ws != [] {
      var init, last := ws[..|ws| - 1], ws[|ws| - 1];
      SentenceWords(init);
      OneWordCounts(last);
      WordsAcrossSpace(Join(" ", init), last);
    }
  }

  lemma {:induction false} RequestWords()
    ensures Words(Join(" ", REQUEST)) == 8
  {
    assert OneWord("Return") && OneWord("only") && OneWord("JSON") && OneWord("that");
    assert OneWord("satisfies") && OneWord("the") && OneWord("requested") && OneWord("schema.");
    SentenceWords(REQUEST);
  }

  lemma {:induction false} CorrectWords()
    ensures Words(Join(" ", CORRECT)) == 4
  {
    assert OneWord("Correct") && OneWord("these") && OneWord("validation") && OneWord("failures:");
    SentenceWords(CORRECT);
  }

  /** Bounding a text keeps its beginning. */
  lemma {:induction false} BoundedKeepsPrefix(p: string, x: string, limit: nat) returns (rest: string)
    requires limit >= 3 && |p| <= limit - 3
    ensures Bounded(p + x, limit) == p + rest && |rest| <= limit - |p|
  {
    if |p + x| <= limit {
      rest := x;
    } else {
      rest := x[..limit - 3 - |p|] + "...";
      assert (p + x)[..limit - 3] == p + x[..limit - 3 - |p|];
    }
  }

  lemma {:induction false} WordAndRest(word: string, rest: string, mark: string)
    requires OneWord(word) && |mark| == 1
    ensures 2 * Words(word + " " + rest + mark) <= |rest| + 4
  {
    assert word + " " + rest + mark == word + " " + (rest + mark);
    WordsAcrossSpace(word, rest + mark);
    OneWordCounts(word);
    WordsAtMostHalf(rest + mark);
  }

  /** A type failure: one word of eight letters and at most 55 further characters. */
  lemma {:induction false} TypeMessageWords(names: seq<string>, mark: string)
    requires |mark| == 1
    ensures Words(Bounded(FailureMessage(Type(names)), MAX_FAILURE_MESSAGE_CHARS) + mark) <= 29
  {
    var word := "expected";
    var joined := Join(" or ", names);
    assert FailureMessage(Type(names)) == (word + " ") + joined;
    assert |word| == 8;
    var rest := BoundedKeepsPrefix(word + " ", joined, MAX_FAILURE_MESSAGE_CHARS);
    assert OneWord(word);
    WordAndRest(word, rest, mark);
  }

  lemma {:induction false} ShortMessageWords(message: string, mark: string)
    requires |message| <= 56 && |mark| == 1
    ensures Words(message + mark) <= 29
  {
    WordsAtMostHalf(message + mark);
  }

  lemma {:induction false} KeywordMessageWords(keyword: Keyword, mark: string)
    requires |mark| == 1
    ensures Words(Bounded(FailureMessage(keyword), MAX_FAILURE_MESSAGE_CHARS) + mark) <= 29
  {
    if keyword.Type? {
      TypeMessageWords(keyword.names, mark);
    } else {
      ShortMessageWords(Bounded(FailureMessage(keyword), MAX_FAILURE_MESSAGE_CHARS), mark);
    }
  }

  /** The wording keeps every message and the mark after it to 29 words. */
  lemma {:induction false} MessageWords(f: Failure, mark: string)
    requires FromValidation([f]) && |mark| == 1
    ensures Words(f.message + mark) <= 29 && |f.message| <= MAX_FAILURE_MESSAGE_CHARS
  {
    var failures := [f];
    assert failures[0] == f;
    if failures == [Failure("$", "invalid JSON")] {
      ShortMessageWords("invalid JSON", mark);
    } else {
      var keyword :| failures[0].message == Bounded(FailureMessage(keyword), MAX_FAILURE_MESSAGE_CHARS);
      KeywordMessageWords(keyword, mark);
    }
  }

  lemma {:induction false} PathWords(path: string)
    ensures Words(Bounded(path, MAX_FAILURE_PATH_CHARS) + ":") <= 71
  {
    WordsAtMostHalf(Bounded(path, MAX_FAILURE_PATH_CHARS) + ":");
  }

  lemma {:induction false} PathThenMessage(path: string, message: string, mark: string)
    ensures Words(path + ":" + " " + message + mark) == Words(path + ":") + Words(message + mark)
  {
    assert path + ":" + " " + message + mark == (path + ":") + " " + (message + mark);
    WordsAcrossSpace(path + ":", message + mark);
  }

  lemma {:induction false} DetailWords(f: Failure, mark: string)
    requires FromValidation([f]) && |mark| == 1
    ensures Words(Detail(f) + mark) <= 100
  {
    MessageWords(f, mark);
    PathWords(f.path);
    PathThenMessage(Bounded(f.path, MAX_FAILURE_PATH_CHARS), f.message, mark);
  }

  lemma {:induction false} DetailsLength(failures: seq<Failure>)
    ensures |Details(failures)| == |failures|
    ensures failures != [] ==> Details(failures)[..|failures| - 1] == Details(failures[..|failures| - 1])
    ensures failures != [] ==> Details(failures)[|failures| - 1] == Detail(failures[|failures| - 1])
    decreases |failures|
  {
    if failures != [] { DetailsLength(failures[..|failures| - 1]); }
  }

  lemma {:induction false} JoinLast(init: seq<string>, last: string, mark: string)
    requires init != []
    ensures Join("; ", init + [last]) + mark == Join("; ", init) + ";" + " " + (last + mark)
  {
    assert (init + [last])[..|init|] == init;
    var a := Join("; ", init);
    assert Join("; ", init + [last]) == a + "; " + last;
    SplitSeparator(a, last, mark);
  }

  lemma {:induction false} SplitSeparator(a: string, last: string, mark: string)
    ensures a + "; " + last + mark == a + ";" + " " + (last + mark)
  {
  }

  /** Each detail of a joined and ended list makes at most 100 words. */
  lemma {:induction false} DetailsWords(failures: seq<Failure>, mark: string)
    requires failures != [] && |mark| == 1
    requires forall i :: 0 <= i < |failures| ==> FromValidation([failures[i]])
    ensures Words(Join("; ", Details(failures)) + mark) <= 100 * |failures|
    decreases |failures|
  {
    var last := failures[|failures| - 1];
    DetailWords(last, mark);
    if |failures| == 1 {
      DetailsLength(failures);
    } else {
      var init := failures[..|failures| - 1];
      forall i | 0 <= i < |init| ensures FromValidation([init[i]]) { assert init[i] == failures[i]; }
      DetailsWords(init, ";");
      WordsAcrossSpace(Join("; ", Details(init)) + ";", Detail(last) + mark);
      JoinLast(Details(init), Detail(last), mark);
      DetailsLength(init);
    }
  }

  lemma {:induction false} EachFromValidation(failures: seq<Failure>, i: nat)
    requires FromValidation(failures) && i < |failures|
    ensures FromValidation([failures[i]])
  {
    if failures != [Failure("$", "invalid JSON")] {
      var keyword :| failures[i].message == Bounded(FailureMessage(keyword), MAX_FAILURE_MESSAGE_CHARS);
      assert [failures[i]][0] == failures[i];
    } else {
      assert failures[i] == failures[0];
    }
  }

  lemma {:induction false} WordsOfInstruction(failures: seq<Failure>)
    requires |failures| <= MAX_VALIDATION_FAILURES
    ensures Words(Instruction(failures)) == 12 + Words(Join("; ", Details(failures)) + ".")
  {
    assert failures[..|failures|] == failures;
    var request, correct, details := Join(" ", REQUEST), Join(" ", CORRECT), Join("; ", Details(failures)) + ".";
    assert Instruction(failures) == request + " " + correct + " " + details;
    RequestWords();
    CorrectWords();
    WordsAcrossSpace(request, correct);
    WordsAcrossSpace(request + " " + correct, details);
  }

  lemma {:induction false} InstructionWords(failures: seq<Failure>)
    requires FromValidation(failures)
    ensures Words(Instruction(failures)) <= 312
  {
    WordsOfInstruction(failures);
    if failures == [] {
      WordsAtMostHalf(Join("; ", Details(failures)) + ".");
    } else {
      forall i | 0 <= i < |failures| ensures FromValidation([failures[i]]) { EachFromValidation(failures, i); }
      DetailsWords(failures, ".");
    }
  }

  lemma {:induction false} ChunksAppend(messages: seq<Message>, added: string)
    ensures Chunks(messages + [Message(TextContent(added))]) == Chunks(messages) + [added]
  {
    assert (messages + [Message(TextContent(added))])[..|messages|] == messages;
  }

  lemma {:induction false} JoinWordsAppend(chunks: seq<string>, added: string)
    ensures Words(Join(" ", chunks + [added])) == Words(Join(" ", chunks)) + Words(added)
  {
    if chunks == [] {
      assert chunks + [added] == [added];
    } else {
      assert (chunks + [added])[..|chunks|] == chunks;
      WordsAcrossSpace(Join(" ", chunks), added);
    }
  }

  lemma {:induction false} TokensAreWords(text: string)
    ensures Words(text) <= CountTokens(text) <= Words(text) + 1
  {
  }

  /** One more message of text adds its words, and at most one token more. */
  lemma {:induction false} AppendedTokens(messages: seq<Message>, added: string)
    ensures CountTokens(ExtractText(ListInput(messages + [Message(TextContent(added))])))
         <= CountTokens(Join(" ", Chunks(messages))) + Words(added) + 1
  {
    ChunksAppend(messages, added);
    JoinWordsAppend(Chunks(messages), added);
    TokensAreWords(Join(" ", Chunks(messages)));
    TokensAreWords(Join(" ", Chunks(messages) + [added]));
  }

  lemma {:induction false} TextAsMessage(text: string)
    ensures Chunks([Message(TextContent(text))]) == [text]
  {
    ChunksAppend([], text);
    assert [] + [Message(TextContent(text))] == [Message(TextContent(text))];
  }

  /** The corrective reserve is enough: whatever the request and whatever failures
      validation reported, the corrected request counts at most 320 tokens more. */
  lemma {:induction false} CorrectiveReserveIsEnough(input: Input, failures: seq<Failure>)
    requires FromValidation(failures)
    ensures CountTokens(ExtractText(CorrectiveInput(input, failures)))
         <= CountTokens(ExtractText(input)) + CORRECTIVE_RETRY_TOKEN_RESERVE
  {
    InstructionWords(failures);
    match input
    case TextInput(text) =>
      AppendedTokens([Message(TextContent(text))], Instruction(failures));
      TextAsMessage(text);
    case ListInput(messages) => AppendedTokens(messages, Instruction(failures));
    case OtherInput => AppendedTokens([], Instruction(failures));
  }

  // -------------------------------------------------- the limits alone are not enough

  function Repeated(n: nat): string { if n == 0 then "" else "a" + " " + Repeated(n - 1) }

  lemma {:induction false} RepeatedWords(n: nat, mark: string)
    requires OneWord(mark) && mark != ""
    ensures Words(Repeated(n) + mark) == n + 1 && |Repeated(n)| == 2 * n
    decreases n
  {
    if n == 0 {
      assert "" + mark == mark;
      OneWordCounts(mark);
    } else {
      RepeatedWords(n - 1, mark);
      assert OneWord("a");
      OneWordCounts("a");
      WordsAcrossSpace("a", Repeated(n - 1) + mark);
      assert Repeated(n) + mark == "a" + " " + (Repeated(n - 1) + mark);
    }
  }

  /** As many words as the character limits allow, which no validation reports. */
  function Dense(): Failure { Failure(Repeated(70), Repeated(32)) }

  lemma {:induction false} DenseDetail(mark: string)
    requires mark in [";", "."]
    ensures Words(Detail(Dense()) + mark) == 104
  {
    assert OneWord(":") && OneWord(mark);
    RepeatedWords(70, ":");
    RepeatedWords(32, mark);
    PathThenMessage(Repeated(70), Repeated(32), mark);
  }

  lemma {:induction false} DenseDetails(failures: seq<Failure>, mark: string)
    requires failures != [] && mark in [";", "."] && forall i :: 0 <= i < |failures| ==> failures[i] == Dense()
    ensures Words(Join("; ", Details(failures)) + mark) == 104 * |failures|
    decreases |failures|
  {
    var last := failures[|failures| - 1];
    DenseDetail(mark);
    if |failures| == 1 {
      DetailsLength(failures);
    } else {
      var init := failures[..|failures| - 1];
      DenseDetails(init, ";");
      WordsAcrossSpace(Join("; ", Details(init)) + ";", Detail(last) + mark);
      JoinLast(Details(init), Detail(last), mark);
      DetailsLength(init);
    }
  }

  lemma {:induction false} DenseInstruction(failures: seq<Failure>)
    requires |failures| == 3 && forall i :: 0 <= i < |failures| ==> failures[i] == Dense()
    ensures Words(Instruction(failures)) == 324
  {
    WordsOfInstruction(failures);
    DenseDetails(failures, ".");
  }

  predicate WithinCharacterLimits(failures: seq<Failure>) {
    && |failures| <= MAX_VALIDATION_FAILURES
    && forall i :: 0 <= i < |failures| ==>
         |failures[i].path| <= MAX_FAILURE_PATH_CHARS && |failures[i].message| <= MAX_FAILURE_MESSAGE_CHARS
  }

  predicate ExceedsReserve(input: Input, failures: seq<Failure>) {
    CountTokens(ExtractText(CorrectiveInput(input, failures)))
      > CountTokens(ExtractText(input)) + CORRECTIVE_RETRY_TOKEN_RESERVE
  }

  lemma {:induction false} DenseWithinLimits(failures: seq<Failure>)
    requires |failures| == 3 && forall i :: 0 <= i < |failures| ==> failures[i] == Dense()
    ensures WithinCharacterLimits(failures)
  {
    assert OneWord(".");
    RepeatedWords(70, ".");
    RepeatedWords(32, ".");
  }

  lemma {:induction false} DenseExceeds(failures: seq<Failure>)
    requires failures == [Dense(), Dense(), Dense()]
    ensures ExceedsReserve(ListInput([]), failures)
  {
    DenseInstruction(failures);
    var added := Instruction(failures);
    ChunksAppend([], added);
    JoinWordsAppend([], added);
    TokensAreWords(Join(" ", Chunks([]) + [added]));
    assert Join(" ", []) == "";
  }

  /** Three failures within the character limits, but with other messages than those that
      validation writes, pass the reserve: the fixed wording is what makes it enough. */
  lemma {:induction false} CharacterLimitsAloneAreNotEnough()
    ensures exists input, failures :: WithinCharacterLimits(failures) && ExceedsReserve(input, failures)
  {
    var failures := [Dense(), Dense(), Dense()];
    DenseWithinLimits(failures);
    DenseExceeds(failures);
  }
}
