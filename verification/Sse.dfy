/** Server-sent events: what mixapi/streaming.py prints, `_sse_messages` of
    mixapi/adapters.py reads (section 9.2.6 of the WHATWG HTML Standard), and the deltas
    into which both cut a text. */
module Sse {
  import opened Prelude
  import opened Text

  /** An event name and its data; the program's data are compact JSON in ASCII. */
  type Message = (string, string)

  /** `encode_sse`, given the encoded JSON. */
  function EncodeSse(m: Message): string { "event: " + m.0 + "\n" + "data: " + m.1 + "\n\n" }

  function EncodeAll(messages: seq<Message>): string
    decreases |messages|
  {
    if messages == [] then "" else EncodeSse(messages[0]) + EncodeAll(messages[1..])
  }

  /** What the reader holds between two lines. */
  datatype Reader = Reader(name: string, data: seq<string>, out: seq<Message>)

  const START := Reader("", [], [])

  predicate StartsWith(prefix: string, line: string) { prefix <= line }

  function Flush(r: Reader): Reader {
    Reader("", [], if r.data != [] then r.out + [(r.name, Join("\n", r.data))] else r.out)
  }

  function Read(r: Reader, line: string): Reader {
    if line == "" then Flush(r)
    else if StartsWith("event:", line) then r.(name := Strip(line[6..]))
    else if StartsWith("data:", line) then r.(data := r.data + [LStrip(line[5..])])
    else r
  }

  function ReadAll(r: Reader, lines: seq<string>): Reader
    decreases |lines|
  {
    if lines == [] then r else Read(ReadAll(r, lines[..|lines| - 1]), lines[|lines| - 1])
  }

  /** The messages of a stream of lines; data left at the end make a last one. */
  function Messages(lines: seq<string>): seq<Message> { Flush(ReadAll(START, lines)).out }

  /** `_sse_messages`. */
  method SseMessages(lines: seq<string>) returns (out: seq<Message>)
    ensures out == Messages(lines)
  {
    var eventName, dataLines: seq<string> := "", [];
    out := [];
    for i := 0 to |lines|
      invariant Reader(eventName, dataLines, out) == ReadAll(START, lines[..i])
    {
      var line := lines[i];
      assert lines[..i + 1][..i] == lines[..i];
      if line == "" {
        if dataLines != [] { out := out + [(eventName, Join("\n", dataLines))]; }
        eventName, dataLines := "", [];
        continue;
      }
      if "event:" <= line {
        eventName := Strip(line[6..]);
      } else if "data:" <= line {
        dataLines := dataLines + [LStrip(line[5..])];
      }
    }
    assert lines[..|lines|] == lines;
    if dataLines != [] { out := out + [(eventName, Join("\n", dataLines))]; }
  }

  lemma {:induction false} ReadAllAppend(r: Reader, a: seq<string>, b: seq<string>)
    ensures ReadAll(r, a + b) == ReadAll(ReadAll(r, a), b)
    decreases |b|
  {
    if b == [] {
      assert a + b == a;
    } else {
      assert (a + b)[..|a + b| - 1] == a + b[..|b| - 1];
      ReadAllAppend(r, a, b[..|b| - 1]);
    }
  }

  // -------------------------------------------------------------------------- round trip

  ghost predicate Trimmed(s: string) { s == "" || (!IsSpace(s[0]) && !IsSpace(s[|s| - 1])) }

  /** A name without surrounding white space and data, both on one line; JSON text is not
      empty and neither starts nor ends with white space. */
  ghost predicate Printable(m: Message) { OneLine(m.0) && Trimmed(m.0) && OneLine(m.1) && Trimmed(m.1) && m.1 != "" }

  lemma {:induction false} StripSpace(s: string)
    requires Trimmed(s)
    ensures LStrip(" " + s) == s && Strip(" " + s) == s
  {
    assert (" " + s)[1..] == s;
  }

  lemma {:induction false} OneLineJoin(a: string, b: string)
    requires OneLine(a) && OneLine(b)
    ensures OneLine(a + b)
  {
  }

  lemma {:induction false} MessageText(m: Message, rest: string)
    ensures EncodeSse(m) + rest == "event: " + m.0 + "\n" + ("data: " + m.1 + "\n" + ("" + "\n" + rest))
  {
  }

  lemma {:induction false} ThreeLines(first: string, second: string, rest: string)
    requires OneLine(first) && OneLine(second)
    ensures Lines(first + "\n" + (second + "\n" + ("" + "\n" + rest))) == [first, second, ""] + Lines(rest)
  {
    var third := "" + "\n" + rest;
    LinesFirst(first, second + "\n" + third);
    LinesFirst(second, third);
    LinesFirst("", rest);
  }

  lemma {:induction false} LinesOfMessage(m: Message, rest: string)
    requires Printable(m)
    ensures Lines(EncodeSse(m) + rest) == ["event: " + m.0, "data: " + m.1, ""] + Lines(rest)
  {
    assert OneLine("event: ") && OneLine("data: ");
    OneLineJoin("event: ", m.0);
    OneLineJoin("data: ", m.1);
    MessageText(m, rest);
    ThreeLines("event: " + m.0, "data: " + m.1, rest);
  }

  lemma {:induction false} ReadThree(r: Reader, a: string, b: string, c: string)
    ensures ReadAll(r, [a, b, c]) == Read(Read(Read(r, a), b), c)
  {
    assert [a, b, c][..2] == [a, b] && [a, b][..1] == [a] && [a][..0] == [];
    assert ReadAll(r, [a]) == Read(r, a);
    assert ReadAll(r, [a, b]) == Read(Read(r, a), b);
  }

  lemma {:induction false} ReadName(r: Reader, name: string)
    requires Trimmed(name)
    ensures Read(r, "event: " + name) == r.(name := name)
  {
    var line := "event: " + name;
    assert line == "event:" + (" " + name);
    assert line[6..] == " " + name;
    StripSpace(name);
  }

  lemma {:induction false} ReadData(r: Reader, data: string)
    requires Trimmed(data)
    ensures Read(r, "data: " + data) == r.(data := r.data + [data])
  {
    var line := "data: " + data;
    assert line == "data:" + (" " + data);
    assert line[5..] == " " + data && line[0] != "event:"[0];
    StripSpace(data);
  }

  lemma {:induction false} ReadMessage(out: seq<Message>, m: Message)
    requires Printable(m)
    ensures ReadAll(Reader("", [], out), ["event: " + m.0, "data: " + m.1, ""]) == Reader("", [], out + [m])
  {
    ReadThree(Reader("", [], out), "event: " + m.0, "data: " + m.1, "");
    ReadName(Reader("", [], out), m.0);
    ReadData(Reader(m.0, [], out), m.1);
    assert [] + [m.1] == [m.1];
  }

  lemma {:induction false} ReadNext(m: Message, rest: string, out: seq<Message>)
    requires Printable(m)
    ensures ReadAll(Reader("", [], out), Lines(EncodeSse(m) + rest)) == ReadAll(Reader("", [], out + [m]), Lines(rest))
  {
    LinesOfMessage(m, rest);
    ReadAllAppend(Reader("", [], out), ["event: " + m.0, "data: " + m.1, ""], Lines(rest));
    ReadMessage(out, m);
  }

  ghost predicate AllPrintable(messages: seq<Message>) {
    forall k :: 0 <= k < |messages| ==> Printable(messages[k])
  }

  lemma {:induction false} AllPrintableParts(messages: seq<Message>)
    requires AllPrintable(messages) && messages != []
    ensures Printable(messages[0]) && AllPrintable(messages[1..])
  {
  }

  lemma {:induction false} ReadBack(messages: seq<Message>, out: seq<Message>)
    requires AllPrintable(messages)
    ensures ReadAll(Reader("", [], out), Lines(EncodeAll(messages))) == Reader("", [], out + messages)
    decreases |messages|
  {
    if messages == [] {
      assert out + messages == out;
    } else {
      var m, rest := messages[0], messages[1..];
      AllPrintableParts(messages);
      assert EncodeAll(messages) == EncodeSse(m) + EncodeAll(rest);
      ReadNext(m, EncodeAll(rest), out);
      ReadBack(rest, out + [m]);
      assert (out + [m]) + rest == out + messages;
    }
  }

  /** Reading the lines of any printed stream gives back its names and data in order. */
  lemma {:induction false} PrintedStreamReadsBack(messages: seq<Message>)
    requires AllPrintable(messages)
    ensures Messages(Lines(EncodeAll(messages))) == messages
  {
    ReadBack(messages, []);
    assert [] + messages == messages;
  }

  predicate Meaningful(line: string) { line == "" || "event:" <= line || "data:" <= line }

  /** Comments and unknown fields, wherever they stand, change nothing. */
  lemma {:induction false} OtherLinesIgnored(lines: seq<string>)
    ensures ReadAll(START, Filter(lines, Meaningful)) == ReadAll(START, lines)
    decreases |lines|
  {
    if lines != [] {
      var init, last := lines[..|lines| - 1], lines[|lines| - 1];
      OtherLinesIgnored(init);
      FilterLast(lines, Meaningful);
      if Meaningful(last) {
        var kept := Filter(init, Meaningful);
        assert (kept + [last])[..|kept|] == kept;
      }
    }
  }

  // ------------------------------------------------------------------------------- deltas

  /** Words with single spaces put back between them. */
  function Glue(words: seq<string>): string
    requires words != []
    decreases |words|
  {
    if |words| == 1 then words[0] else words[0] + " " + Glue(words[1..])
  }

  lemma {:induction false} GlueNext(words: seq<string>, i: nat)
    requires i < |words|
    ensures Glue(words[i..]) == if i == |words| - 1 then words[i] else words[i] + " " + Glue(words[i + 1..])
  {
    assert words[i..][1..] == words[i + 1..];
  }

  lemma {:induction false} GlueChar(c: char, words: seq<string>)
    requires words != []
    ensures Glue([[c] + words[0]] + words[1..]) == [c] + Glue(words)
  {
    var longer := [[c] + words[0]] + words[1..];
    assert longer[1..] == words[1..];
    if |words| > 1 { GlueTwo(longer[0], words[0], c, " " + Glue(words[1..])); }
  }

  lemma {:induction false} GlueTwo(longer: string, word: string, c: char, tail: string)
    requires longer == [c] + word
    ensures longer + tail == [c] + (word + tail)
  {
  }

  lemma {:induction false} GlueSpace(words: seq<string>)
    requires words != []
    ensures Glue([""] + words) == [' '] + Glue(words)
  {
    assert ([""] + words)[1..] == words;
    assert "" + " " + Glue(words) == [' '] + Glue(words);
  }

  /** Splitting at spaces and putting the spaces back gives the text. */
  lemma {:induction false} GlueUndoesSplit(text: string)
    ensures Glue(SplitSpaces(text)) == text
    decreases |text|
  {
    if text != "" {
      var rest := SplitSpaces(text[1..]);
      GlueUndoesSplit(text[1..]);
      assert text == [text[0]] + text[1..];
      if text[0] == ' ' {
        GlueSpace(rest);
      } else {
        GlueChar(text[0], rest);
      }
    }
  }

  predicate NoSpace(s: string) { forall k :: 0 <= k < |s| ==> s[k] != ' ' }

  lemma {:induction false} SplitHasNoSpace(text: string)
    ensures forall k :: 0 <= k < |SplitSpaces(text)| ==> NoSpace(SplitSpaces(text)[k])
    decreases |text|
  {
    if text != "" {
      SplitHasNoSpace(text[1..]);
      var parts, rest := SplitSpaces(text), SplitSpaces(text[1..]);
      if text[0] == ' ' {
        assert forall k :: 0 < k < |parts| ==> parts[k] == rest[k - 1];
      } else {
        assert NoSpace(rest[0]);
        assert forall k :: 0 < k < |parts| ==> parts[k] == rest[k];
      }
    }
  }

  /** A word with the space that follows it; the last word of a text has none. */
  predicate OneWordDelta(delta: string, last: bool) {
    if last then NoSpace(delta) else delta != "" && delta[|delta| - 1] == ' ' && NoSpace(delta[..|delta| - 1])
  }

  /** `text` is what has been yielded followed by the words still to come. */
  ghost predicate Yielded(text: string, deltas: seq<string>, words: seq<string>, index: nat) {
    index <= |words| && text == Join("", deltas) + if index < |words| then Glue(words[index..]) else ""
  }

  lemma {:induction false} YieldNext(text: string, deltas: seq<string>, words: seq<string>, index: nat, delta: string)
    requires index < |words| && Yielded(text, deltas, words, index)
    requires delta == words[index] + if index < |words| - 1 then " " else ""
    ensures Yielded(text, deltas + [delta], words, index + 1)
    ensures delta == "" ==> Yielded(text, deltas, words, index + 1)
  {
    GlueNext(words, index);
    JoinAppend(deltas, delta);
    var done := Join("", deltas);
    if index < |words| - 1 {
      var rest := Glue(words[index + 1..]);
      assert done + (delta + rest) == done + delta + rest;
    }
    assert done + "" == done;
  }

  lemma {:induction false} YieldStart(text: string)
    ensures Yielded(text, [], SplitSpaces(text), 0)
  {
    GlueUndoesSplit(text);
    assert SplitSpaces(text)[0..] == SplitSpaces(text);
    assert "" + text == text;
  }

  lemma {:induction false} WordIsDelta(word: string, last: bool)
    requires NoSpace(word)
    ensures OneWordDelta(word + if last then "" else " ", last)
  {
    if last { assert word + "" == word; }
  }

  /** `_text_deltas` of mixapi/streaming.py: one delta for each word. */
  method TextDeltas(text: string) returns (deltas: seq<string>)
    ensures Join("", deltas) == text
    ensures deltas == [] <==> text == ""
    ensures forall k :: 0 <= k < |deltas| ==> OneWordDelta(deltas[k], k == |deltas| - 1)
  {
    deltas := [];
    if text == "" { return; }
    var words := SplitSpaces(text);
    YieldStart(text);
    SplitHasNoSpace(text);
    for index := 0 to |words|
      invariant Yielded(text, deltas, words, index) && |deltas| == index
      invariant forall k :: 0 <= k < index ==> OneWordDelta(deltas[k], k == |words| - 1)
    {
      var suffix := if index < |words| - 1 then " " else "";
      YieldNext(text, deltas, words, index, words[index] + suffix);
      WordIsDelta(words[index], index == |words| - 1);
      deltas := deltas + [words[index] + suffix];
    }
  }

  /** Deltas of one word each, none empty; only the last may end without a space. */
  ghost predicate NonEmptyWords(deltas: seq<string>, finished: bool) {
    forall k :: 0 <= k < |deltas| ==>
      deltas[k] != "" && (OneWordDelta(deltas[k], false) || (finished && k == |deltas| - 1 && NoSpace(deltas[k])))
  }

  lemma {:induction false} NonEmptyNext(deltas: seq<string>, word: string, last: bool)
    requires NonEmptyWords(deltas, false) && NoSpace(word)
    ensures var delta := word + if last then "" else " ";
      NonEmptyWords(if delta == "" then deltas else deltas + [delta], last)
  {
    WordIsDelta(word, last);
  }

  /** `_text_deltas` of mixapi/adapters.py: the same without an empty last one. */
  method NonEmptyTextDeltas(text: string) returns (deltas: seq<string>)
    ensures Join("", deltas) == text && NonEmptyWords(deltas, true)
  {
    deltas := [];
    var words := SplitSpaces(text);
    YieldStart(text);
    SplitHasNoSpace(text);
    for index := 0 to |words|
      invariant Yielded(text, deltas, words, index) && NonEmptyWords(deltas, index == |words|)
    {
      var suffix := if index < |words| - 1 then " " else "";
      YieldNext(text, deltas, words, index, words[index] + suffix);
      NonEmptyNext(deltas, words[index], index == |words| - 1);
      if words[index] != "" || suffix != "" {
        deltas := deltas + [words[index] + suffix];
      }
    }
  }
}
