/**
 * Base 64 encoding with the standard alphabet and `=` padding (section 4
 * of RFC 4648), as `base64.b64encode` writes it, and a decoder that accepts
 * what the encoder writes.
 */
module Base64 {
  import opened Framework

  type Byte = x: int | 0 <= x < 256

  /** A six-bit group: an index into the alphabet. */
  type Sextet = x: int | 0 <= x < 64

  const Pad := '='

  /** The character the alphabet gives a six-bit group (Table 1 of RFC 4648). */
  function CharOf(i: Sextet): (c: char)
    ensures c != Pad
  {
    if i < 26 then 'A' + i as char
    else if i < 52 then 'a' + (i - 26) as char
    else if i < 62 then '0' + (i - 52) as char
    else if i == 62 then '+'
    else '/'
  }

  /** The six-bit group a character stands for, if it is in the alphabet. */
  function IndexOf(c: char): (r: Option<Sextet>)
    ensures r.Some? ==> CharOf(r.value) == c
  {
    if 'A' <= c <= 'Z' then Some((c - 'A') as int)
    else if 'a' <= c <= 'z' then Some((c - 'a') as int + 26)
    else if '0' <= c <= '9' then Some((c - '0') as int + 52)
    else if c == '+' then Some(62)
    else if c == '/' then Some(63)
    else None
  }

  lemma IndexOfCharOf(i: Sextet)
    ensures IndexOf(CharOf(i)) == Some(i)
  {
  }

  /** What decoding raises. */
  datatype DecodeError = IncorrectPadding | NotInAlphabet(c: char)

  /** Three bytes as four characters. */
  function EncodeTriple(a: Byte, b: Byte, c: Byte): string
  {
    [CharOf(a / 4), CharOf((a % 4) * 16 + b / 16), CharOf((b % 16) * 4 + c / 64), CharOf(c % 64)]
  }

  /** `base64.b64encode`: whole triples, then one or two trailing bytes padded with `=`. */
  function Encode(bytes: seq<Byte>): (s: string)
    ensures |s| == (|bytes| + 2) / 3 * 4
  {
    if bytes == [] then ""
    else if |bytes| == 1 then
      var a := bytes[0];
      [CharOf(a / 4), CharOf((a % 4) * 16), Pad, Pad]
    else if |bytes| == 2 then
      var a, b := bytes[0], bytes[1];
      [CharOf(a / 4), CharOf((a % 4) * 16 + b / 16), CharOf((b % 16) * 4), Pad]
    else EncodeTriple(bytes[0], bytes[1], bytes[2]) + Encode(bytes[3..])
  }

  /** The six-bit groups of a run of characters, or the first one outside the alphabet. */
  function Indices(s: string): (r: Result<seq<Sextet>, DecodeError>)
    ensures r.Ok? ==> |r.value| == |s| && forall k :: 0 <= k < |s| ==> IndexOf(s[k]) == Some(r.value[k])
  {
    if s == [] then Ok([])
    else
      var i := IndexOf(s[0]);
      if i.None? then Err(NotInAlphabet(s[0]))
      else
        var rest := Indices(s[1..]);
        if rest.Err? then rest else Ok([i.value] + rest.value)
  }

  /** One group of four characters, the last of which may carry one or two `=`. */
  function DecodeQuad(quad: string, last: bool): (r: Result<seq<Byte>, DecodeError>)
    requires |quad| == 4
    ensures r.Ok? ==> 1 <= |r.value| <= 3
  {
    var padding := if last && quad[2] == Pad && quad[3] == Pad then 2 else if last && quad[3] == Pad then 1 else 0;
    var ix := Indices(quad[..4 - padding]);
    if ix.Err? then Err(if Pad in quad[..4 - padding] then IncorrectPadding else ix.error)
    else
      var i := ix.value;
      var a: Byte := i[0] as int * 4 + i[1] as int / 16;
      if padding == 2 then Ok([a])
      else
        var b: Byte := (i[1] as int % 16) * 16 + i[2] as int / 4;
        if padding == 1 then Ok([a, b]) else var c: Byte := (i[2] as int % 4) * 64 + i[3] as int; Ok([a, b, c])
  }

  /** `base64.b64decode` on a string of whole four-character groups. */
  function Decode(s: string): (r: Result<seq<Byte>, DecodeError>)
    ensures |s| % 4 != 0 ==> r.Err?
    ensures r.Ok? ==> |r.value| <= |s| / 4 * 3
    ensures r.Ok? && s != [] ==> |s| / 4 * 3 - 2 <= |r.value|
    decreases |s|
  {
    if s == [] then Ok([])
    else if |s| < 4 then Err(IncorrectPadding)
    else
      var head := DecodeQuad(s[..4], |s| == 4);
      if head.Err? then head
      else
        var rest := Decode(s[4..]);
        if rest.Err? then rest else Ok(head.value + rest.value)
  }

  /** The characters of a run of alphabet characters give back their groups. */
  lemma {:induction false} IndicesOfChars(g: seq<Sextet>)
    ensures Indices(seq(|g|, k requires 0 <= k < |g| => CharOf(g[k]))) == Ok(g)
  {
    var s := seq(|g|, k requires 0 <= k < |g| => CharOf(g[k]));
    if g != [] {
      IndexOfCharOf(g[0]);
      IndicesOfChars(g[1..]);
      assert s[1..] == seq(|g[1..]|, k requires 0 <= k < |g[1..]| => CharOf(g[1..][k]));
      assert g == [g[0]] + g[1..];
    }
  }

  /** Splitting a byte into the groups' bits and joining them again gives the byte back. */
  lemma BitsRejoin(a: Byte, b: Byte, c: Byte)
    ensures a / 4 * 4 + ((a % 4) * 16 + b / 16) / 16 == a
    ensures (((a % 4) * 16 + b / 16) % 16) * 16 + ((b % 16) * 4 + c / 64) / 4 == b
    ensures (((b % 16) * 4 + c / 64) % 4) * 64 + c % 64 == c
  {
  }

  lemma TripleRoundTrip(a: Byte, b: Byte, c: Byte, last: bool)
    ensures DecodeQuad(EncodeTriple(a, b, c), last) == Ok([a, b, c])
  {
    var g: seq<Sextet> := [a / 4, (a % 4) * 16 + b / 16, (b % 16) * 4 + c / 64, c % 64];
    var q := EncodeTriple(a, b, c);
    IndicesOfChars(g);
    assert q[..4] == q == seq(|g|, k requires 0 <= k < |g| => CharOf(g[k]));
    BitsRejoin(a, b, c);
  }

  lemma OneByteRoundTrip(a: Byte)
    ensures Decode(Encode([a])) == Ok([a])
  {
    var s := Encode([a]);
    var g: seq<Sextet> := [a / 4, (a % 4) * 16];
    IndicesOfChars(g);
    assert s[..4] == s && s[4..] == [];
    assert s[..2] == seq(|g|, k requires 0 <= k < |g| => CharOf(g[k]));
    BitsRejoin(a, 0, 0);
    assert s[2] == Pad && s[3] == Pad;
    assert DecodeQuad(s[..4], true) == Ok([a]);
    assert [a] + [] == [a];
  }

  lemma TwoBytesRoundTrip(a: Byte, b: Byte)
    ensures Decode(Encode([a, b])) == Ok([a, b])
  {
    var s := Encode([a, b]);
    var g: seq<Sextet> := [a / 4, (a % 4) * 16 + b / 16, (b % 16) * 4];
    IndicesOfChars(g);
    assert s[..4] == s && s[4..] == [];
    assert s[..3] == seq(|g|, k requires 0 <= k < |g| => CharOf(g[k]));
    BitsRejoin(a, b, 0);
    assert s[2] != Pad && s[3] == Pad;
    assert DecodeQuad(s[..4], true) == Ok([a, b]);
    assert [a, b] + [] == [a, b];
  }

  lemma EncodeStep(bytes: seq<Byte>)
    requires |bytes| > 2
    ensures Encode(bytes) == EncodeTriple(bytes[0], bytes[1], bytes[2]) + Encode(bytes[3..])
  {
  }

  lemma DecodeStep(q: string, rest: string)
    requires |q| == 4
    ensures var head, tail := DecodeQuad(q, rest == []), Decode(rest);
      head.Ok? && tail.Ok? ==> Decode(q + rest) == Ok(head.value + tail.value)
  {
    var s := q + rest;
    assert s[..4] == q && s[4..] == rest;
  }

  lemma SplitTriple(bytes: seq<Byte>)
    requires |bytes| > 2
    ensures bytes == [bytes[0], bytes[1], bytes[2]] + bytes[3..]
  {
  }

  /** A leading triple decodes back in front of whatever the rest decodes back to. */
  lemma LongRoundTrip(bytes: seq<Byte>)
    requires |bytes| > 2
    requires Decode(Encode(bytes[3..])) == Ok(bytes[3..])
    ensures Decode(Encode(bytes)) == Ok(bytes)
  {
    var a, b, c, tail := bytes[0], bytes[1], bytes[2], bytes[3..];
    SplitTriple(bytes);
    var q, rest := EncodeTriple(a, b, c), Encode(tail);
    EncodeStep(bytes);
    TripleRoundTrip(a, b, c, rest == []);
    DecodeStep(q, rest);
  }

  /** Decoding what was encoded gives the bytes back. */
  lemma {:induction false} RoundTrip(bytes: seq<Byte>)
    ensures Decode(Encode(bytes)) == Ok(bytes)
  {
    if |bytes| == 1 {
      OneByteRoundTrip(bytes[0]);
      assert bytes == [bytes[0]];
    } else if |bytes| == 2 {
      TwoBytesRoundTrip(bytes[0], bytes[1]);
      assert bytes == [bytes[0], bytes[1]];
    } else if |bytes| > 2 {
      RoundTrip(bytes[3..]);
      LongRoundTrip(bytes);
    }
  }
}
