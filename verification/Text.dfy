/** Python's operations on text that the program relies on. */
module Text {

  /** White space: what `str.split()` splits at and `str.strip()` removes. */
  predicate IsSpace(c: char) {
    var n := c as int;
    || 9 <= n <= 13 || 28 <= n <= 32 || n == 0x85 || n == 0xA0 || n == 0x1680
    || 0x2000 <= n <= 0x200A || n == 0x2028 || n == 0x2029 || n == 0x202F || n == 0x205F || n == 0x3000
  }

  /** `separator.join(chunks)`. */
  function Join(separator: string, chunks: seq<string>): string
    decreases |chunks|
  {
    if chunks == [] then ""
    else if |chunks| == 1 then chunks[0]
    else Join(separator, chunks[..|chunks| - 1]) + separator + chunks[|chunks| - 1]
  }

  lemma {:induction false} JoinAppend(chunks: seq<string>, chunk: string)
    ensures Join("", chunks + [chunk]) == Join("", chunks) + chunk
  {
    assert (chunks + [chunk])[..|chunks|] == chunks;
    assert Join("", chunks) + "" + chunk == Join("", chunks) + chunk;
  }

  function LStrip(s: string): string
    decreases |s|
  {
    if s != "" && IsSpace(s[0]) then LStrip(s[1..]) else s
  }

  function RStrip(s: string): string
    decreases |s|
  {
    if s != "" && IsSpace(s[|s| - 1]) then RStrip(s[..|s| - 1]) else s
  }

  function Strip(s: string): string { RStrip(LStrip(s)) }

  /** The boundaries of `str.splitlines()`. */
  predicate IsBreak(c: char) {
    var n := c as int;
    10 <= n <= 13 || 28 <= n <= 30 || n == 0x85 || n == 0x2028 || n == 0x2029
  }

  ghost predicate OneLine(s: string) { forall k :: 0 <= k < |s| ==> !IsBreak(s[k]) }

  /** The end of the line that starts at `i`. */
  function LineEnd(s: string, i: nat): (r: nat)
    requires i <= |s|
    ensures i <= r <= |s|
    decreases |s| - i
  {
    if i == |s| || IsBreak(s[i]) then i else LineEnd(s, i + 1)
  }

  /** `str.splitlines()`: a carriage return and the line feed after it are one break, and
      a final break starts no further line. */
  function Lines(s: string): seq<string>
    decreases |s|
  {
    if s == "" then [] else
      var end := LineEnd(s, 0);
      if end == |s| then [s]
      else if s[end] == '\r' && end + 1 < |s| && s[end + 1] == '\n' then [s[..end]] + Lines(s[end + 2..])
      else [s[..end]] + Lines(s[end + 1..])
  }

  lemma {:induction false} LineEndOf(line: string, rest: string, i: nat)
    requires OneLine(line) && i <= |line|
    ensures LineEnd(line + "\n" + rest, i) == |line|
    decreases |line| - i
  {
    assert (line + "\n" + rest)[i] == if i == |line| then '\n' else line[i];
    if i < |line| { LineEndOf(line, rest, i + 1); }
  }

  /** A line ended by a line feed comes off the front. */
  lemma {:induction false} LinesFirst(line: string, rest: string)
    requires OneLine(line)
    ensures Lines(line + "\n" + rest) == [line] + Lines(rest)
  {
    var s := line + "\n" + rest;
    LineEndOf(line, rest, 0);
    assert s[|line|] == '\n' && s[..|line|] == line && s[|line| + 1..] == rest;
  }

  /** `text.split(" ")`: at least one part, possibly empty. */
  function SplitSpaces(text: string): (parts: seq<string>)
    ensures parts != []
    decreases |text|
  {
    if text == "" then [""] else
      var rest := SplitSpaces(text[1..]);
      if text[0] == ' ' then [""] + rest else [[text[0]] + rest[0]] + rest[1..]
  }
}
