/** Base64url (RFC 4648, section 5) with its padding stripped, as mixapi/usage.py writes
    and reads cursors. */
module Base64Url {
  import opened Prelude

  type Byte = n: nat | n < 256

  function Symbol(v: nat): char
    requires v < 64
  {
    if v < 26 then ('A' as int + v) as char
    else if v < 52 then ('a' as int + v - 26) as char
    else if v < 62 then ('0' as int + v - 52) as char
    else if v == 62 then '-' else '_'
  }

  function Value(c: char): (v: Option<nat>)
    ensures v.Some? ==> v.value < 64
  {
    if 'A' <= c <= 'Z' then Some(c as int - 'A' as int)
    else if 'a' <= c <= 'z' then Some(c as int - 'a' as int + 26)
    else if '0' <= c <= '9' then Some(c as int - '0' as int + 52)
    else if c == '-' then Some(62) else if c == '_' then Some(63) else None
  }

  lemma {:induction false} ValueOfSymbol(v: nat)
    requires v < 64
    ensures Value(Symbol(v)) == Some(v) && Symbol(v) != '='
  {
  }

  function Group(a: Byte, b: Byte, c: Byte): (g: string)
    ensures |g| == 4
  {
    [Symbol(a / 4), Symbol(a % 4 * 16 + b / 16), Symbol(b % 16 * 4 + c / 64), Symbol(c % 64)]
  }

  /** `base64.urlsafe_b64encode`. */
  function Encode(bytes: seq<Byte>): string
    decreases |bytes|
  {
    if bytes == [] then ""
    else if |bytes| == 1 then Group(bytes[0], 0, 0)[..2] + "=="
    else if |bytes| == 2 then Group(bytes[0], bytes[1], 0)[..3] + "="
    else Group(bytes[0], bytes[1], bytes[2]) + Encode(bytes[3..])
  }

  /** One group of four: `None` for a foreign symbol or padding out of place. */
  function DecodeGroup(g: string): (r: Option<seq<Byte>>)
    requires |g| == 4
  {
    var w, x, y, z := Value(g[0]), Value(g[1]), Value(g[2]), Value(g[3]);
    if w.None? || x.None? then None
    else if g[2..] == "==" then Some([w.value * 4 + x.value / 16])
    else if y.None? then None
    else if g[3] == '=' then Some([w.value * 4 + x.value / 16, x.value % 16 * 16 + y.value / 4])
    else if z.None? then None
    else Some([w.value * 4 + x.value / 16, x.value % 16 * 16 + y.value / 4, y.value % 4 * 64 + z.value])
  }

  /** `base64.urlsafe_b64decode`; only the last group may be padded. */
  function Decode(text: string): Option<seq<Byte>>
    decreases |text|
  {
    if text == "" then Some([])
    else if |text| < 4 then None
    else
      var first := DecodeGroup(text[..4]);
      if first.None? then None
      else if |text| == 4 then first
      else
        var rest := Decode(text[4..]);
        if rest.None? || |first.value| < 3 then None else Some(first.value + rest.value)
  }

  /** The number that four symbols write, six bits each. */
  function Number(g: string): Option<nat>
    requires |g| == 4
  {
    var w, x, y, z := Value(g[0]), Value(g[1]), Value(g[2]), Value(g[3]);
    if w.None? || x.None? || y.None? || z.None? then None
    else Some(262144 * w.value + 4096 * x.value + 64 * y.value + z.value)
  }

  /** Three bytes become the four symbols that write the same 24-bit number, most significant
      first; the symbols are the letters, the digits, a hyphen and an underscore, in order. */
  lemma {:induction false} EncodeKeepsNumber(a: Byte, b: Byte, c: Byte, rest: seq<Byte>, v: nat)
    requires v < 64
    ensures var text := Encode([a, b, c] + rest);
      |text| >= 4 && Number(text[..4]) == Some(65536 * a + 256 * b + c) && text[4..] == Encode(rest)
    ensures Symbol(0) == 'A' && Symbol(26) == 'a' && Symbol(52) == '0' && Symbol(62) == '-' && Symbol(63) == '_'
    ensures v !in [0, 26, 52, 62, 63] ==> Symbol(v) as int == Symbol(v - 1) as int + 1
  {
    assert ([a, b, c] + rest)[3..] == rest;
    GroupNumber(a, b, c);
    assert (Group(a, b, c) + Encode(rest))[..4] == Group(a, b, c);
  }

  lemma {:induction false} GroupNumber(a: Byte, b: Byte, c: Byte)
    ensures Number(Group(a, b, c)) == Some(65536 * a + 256 * b + c)
  {
    ValueOfSymbol(a / 4);
    ValueOfSymbol(a % 4 * 16 + b / 16);
    ValueOfSymbol(b % 16 * 4 + c / 64);
    ValueOfSymbol(c % 64);
  }

  lemma {:induction false} Bits(a: Byte, b: Byte, c: Byte)
    ensures a / 4 * 4 + (a % 4 * 16 + b / 16) / 16 == a
    ensures (a % 4 * 16 + b / 16) % 16 * 16 + (b % 16 * 4 + c / 64) / 4 == b
    ensures (b % 16 * 4 + c / 64) % 4 * 64 + c % 64 == c
  {
  }

  lemma {:induction false} DecodeGroupUndoes(a: Byte, b: Byte, c: Byte)
    ensures DecodeGroup(Group(a, b, c)) == Some([a, b, c])
  {
    DecodeSymbols(a / 4, a % 4 * 16 + b / 16, b % 16 * 4 + c / 64, c % 64);
    Bits(a, b, c);
  }

  lemma {:induction false} DecodeSymbols(w: nat, x: nat, y: nat, z: nat)
    requires w < 64 && x < 64 && y < 64 && z < 64
    ensures DecodeGroup([Symbol(w), Symbol(x), Symbol(y), Symbol(z)])
         == Some([w * 4 + x / 16, x % 16 * 16 + y / 4, y % 4 * 64 + z])
  {
    ValueOfSymbol(w);
    ValueOfSymbol(x);
    ValueOfSymbol(y);
    ValueOfSymbol(z);
  }

  lemma {:induction false} DecodePaddedUndoes(a: Byte, b: Byte)
    ensures DecodeGroup(Group(a, 0, 0)[..2] + "==") == Some([a])
    ensures DecodeGroup(Group(a, b, 0)[..3] + "=") == Some([a, b])
  {
    ValueOfSymbol(a / 4);
    ValueOfSymbol(a % 4 * 16);
    ValueOfSymbol(a % 4 * 16 + b / 16);
    ValueOfSymbol(b % 16 * 4);
    assert (Group(a, b, 0)[..3] + "=")[2] != '=';
  }

  lemma {:induction false} DecodeThen(group: string, rest: string, bytes: seq<Byte>)
    requires |group| == 4 && DecodeGroup(group) == Some(bytes) && |bytes| == 3 && Decode(rest).Some?
    ensures Decode(group + rest) == Some(bytes + Decode(rest).value)
  {
    assert (group + rest)[..4] == group && (group + rest)[4..] == rest;
    if rest == "" { assert bytes + [] == bytes; }
  }

  lemma {:induction false} DecodeUndoesEncode(bytes: seq<Byte>)
    ensures Decode(Encode(bytes)) == Some(bytes)
    decreases |bytes|
  {
    if |bytes| == 1 {
      DecodePaddedUndoes(bytes[0], 0);
      assert Encode(bytes)[..4] == Encode(bytes) == Group(bytes[0], 0, 0)[..2] + "==";
      assert bytes == [bytes[0]];
    } else if |bytes| == 2 {
      DecodePaddedUndoes(bytes[0], bytes[1]);
      assert Encode(bytes)[..4] == Encode(bytes) == Group(bytes[0], bytes[1], 0)[..3] + "=";
      assert bytes == [bytes[0], bytes[1]];
    } else if |bytes| > 2 {
      var group := Group(bytes[0], bytes[1], bytes[2]);
      DecodeGroupUndoes(bytes[0], bytes[1], bytes[2]);
      DecodeUndoesEncode(bytes[3..]);
      DecodeThen(group, Encode(bytes[3..]), [bytes[0], bytes[1], bytes[2]]);
      assert bytes == [bytes[0], bytes[1], bytes[2]] + bytes[3..];
    }
  }

  // ---------------------------------------------------------------------------- padding

  /** `text.rstrip("=")`. */
  function Unpadded(text: string): string
    decreases |text|
  {
    if text != "" && text[|text| - 1] == '=' then Unpadded(text[..|text| - 1]) else text
  }

  /** `"=" * (-length % 4)`. */
  function Padding(length: nat): string {
    match (4 - length % 4) % 4 case 0 => "" case 1 => "=" case 2 => "==" case _ => "==="
  }

  function Padded(text: string): string { text + Padding(|text|) }

  lemma {:induction false} UnpaddedAppend(text: string)
    requires text == "" || text[|text| - 1] != '='
    ensures Unpadded(text) == text && Unpadded(text + "=") == text && Unpadded(text + "==") == text
  {
    assert (text + "=")[..|text|] == text;
    assert (text + "==")[..|text| + 1] == text + "=";
  }

  ghost predicate Shape(text: string, symbols: string) {
    && text == symbols + Padding(|symbols|)
    && (symbols == "" || symbols[|symbols| - 1] != '=')
    && |Padding(|symbols|)| < 3
  }

  lemma {:induction false} ShapeGroup(group: string, text: string, symbols: string)
    requires |group| == 4 && group[3] != '=' && Shape(text, symbols)
    ensures Shape(group + text, group + symbols)
  {
    assert group + (symbols + Padding(|symbols|)) == (group + symbols) + Padding(|symbols|);
    assert |group + symbols| % 4 == |symbols| % 4;
  }

  /** Encoded text is symbols followed by as much padding as their number calls for. */
  lemma {:induction false} EncodeShape(bytes: seq<Byte>) returns (symbols: string)
    ensures Shape(Encode(bytes), symbols)
    decreases |bytes|
  {
    if bytes == [] {
      symbols := "";
    } else if |bytes| == 1 {
      symbols := Group(bytes[0], 0, 0)[..2];
      ValueOfSymbol(bytes[0] % 4 * 16);
    } else if |bytes| == 2 {
      symbols := Group(bytes[0], bytes[1], 0)[..3];
      ValueOfSymbol(bytes[1] % 16 * 4);
    } else {
      var group := Group(bytes[0], bytes[1], bytes[2]);
      ValueOfSymbol(bytes[2] % 64);
      symbols := EncodeShape(bytes[3..]);
      ShapeGroup(group, Encode(bytes[3..]), symbols);
      symbols := group + symbols;
    }
  }

  /** What is read back from unpadded text is what was written. */
  lemma {:induction false} RoundTrip(bytes: seq<Byte>)
    ensures Decode(Padded(Unpadded(Encode(bytes)))) == Some(bytes)
  {
    var symbols := EncodeShape(bytes);
    UnpaddedAppend(symbols);
    assert symbols + "" == symbols;
    DecodeUndoesEncode(bytes);
  }
}
