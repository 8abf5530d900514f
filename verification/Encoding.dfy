/** The text encodings the broker and the client compare: base64url without padding
    (section 5 of RFC 4648) for PKCE challenges, hexadecimal for browser bindings. */
module Encoding {
  import opened Prelude

  type Byte = b: int | 0 <= b < 256
  type Sextet = v: int | 0 <= v < 64

  /** A SHA-256 digest. The hash itself is a parameter everywhere: any function to digests. */
  type Digest = d: seq<Byte> | |d| == 32 witness seq(32, _ => 0)
  type Hash = string -> Digest

  // ----- base64url ---------------------------------------------------------

  function Symbol(v: Sextet): char {
    if v < 26 then ('A' as int + v) as char
    else if v < 52 then ('a' as int + v - 26) as char
    else if v < 62 then ('0' as int + v - 52) as char
    else if v == 62 then '-'
    else '_'
  }

  function SymbolValue(c: char): Option<Sextet> {
    if 'A' <= c <= 'Z' then Some(c as int - 'A' as int)
    else if 'a' <= c <= 'z' then Some(c as int - 'a' as int + 26)
    else if '0' <= c <= '9' then Some(c as int - '0' as int + 52)
    else if c == '-' then Some(62)
    else if c == '_' then Some(63)
    else None
  }

  /** Three bytes become four symbols; a tail of one or two bytes becomes two or three. */
  function Encode(bytes: seq<Byte>): string {
    if bytes == [] then ""
    else if |bytes| == 1 then
      [Symbol(bytes[0] / 4), Symbol(bytes[0] % 4 * 16)]
    else if |bytes| == 2 then
      [Symbol(bytes[0] / 4), Symbol(bytes[0] % 4 * 16 + bytes[1] / 16), Symbol(bytes[1] % 16 * 4)]
    else
      [Symbol(bytes[0] / 4), Symbol(bytes[0] % 4 * 16 + bytes[1] / 16),
       Symbol(bytes[1] % 16 * 4 + bytes[2] / 64), Symbol(bytes[2] % 64)]
      + Encode(bytes[3..])
  }

  /** The values of a text's symbols, or None if some character is not a symbol. */
  function Values(text: string): Option<seq<Sextet>> {
    if text == "" then Some([])
    else match (SymbolValue(text[0]), Values(text[1..]))
      case (Some(v), Some(rest)) => Some([v] + rest)
      case _ => None
  }

  function First(p: Sextet, q: Sextet): Byte { p as int * 4 + q as int / 16 }
  function Second(q: Sextet, r: Sextet): Byte { q as int % 16 * 16 + r as int / 4 }
  function Third(r: Sextet, t: Sextet): Byte { r as int % 4 * 64 + t as int }

  /** The bytes of a run of sextets; a single left-over sextet holds no byte. */
  function Unpack(v: seq<Sextet>): Option<seq<Byte>> {
    if v == [] then Some([])
    else if |v| == 1 then None
    else if |v| == 2 then Some([First(v[0], v[1])])
    else if |v| == 3 then Some([First(v[0], v[1]), Second(v[1], v[2])])
    else match Unpack(v[4..])
      case Some(rest) => Some([First(v[0], v[1]), Second(v[1], v[2]), Third(v[2], v[3])] + rest)
      case None => None
  }

  function Decode(text: string): Option<seq<Byte>> {
    match Values(text)
    case Some(v) => Unpack(v)
    case None => None
  }

  lemma SymbolRoundTrip(v: Sextet)
    ensures SymbolValue(Symbol(v)) == Some(v)
  {
  }

  /** The sextets Encode writes out, one symbol each. */
  function Pack(bytes: seq<Byte>): seq<Sextet> {
    if bytes == [] then []
    else if |bytes| == 1 then [bytes[0] / 4, bytes[0] % 4 * 16]
    else if |bytes| == 2 then [bytes[0] / 4, bytes[0] % 4 * 16 + bytes[1] / 16, bytes[1] % 16 * 4]
    else
      [bytes[0] / 4, bytes[0] % 4 * 16 + bytes[1] / 16, bytes[1] % 16 * 4 + bytes[2] / 64, bytes[2] % 64]
      + Pack(bytes[3..])
  }

  function Symbols(v: seq<Sextet>): string {
    seq(|v|, i requires 0 <= i < |v| => Symbol(v[i]))
  }

  lemma {:induction false} EncodeIsPackedSymbols(bytes: seq<Byte>)
    ensures Encode(bytes) == Symbols(Pack(bytes))
  {
    if |bytes| >= 3 {
      EncodeIsPackedSymbols(bytes[3..]);
      var head := Pack(bytes)[..4];
      assert Pack(bytes) == head + Pack(bytes[3..]);
      assert Symbols(Pack(bytes)) == Symbols(head) + Symbols(Pack(bytes[3..]));
    }
  }

  lemma {:induction false} SymbolsRoundTrip(v: seq<Sextet>)
    ensures Values(Symbols(v)) == Some(v)
  {
    if v != [] {
      SymbolRoundTrip(v[0]);
      SymbolsRoundTrip(v[1..]);
      assert Symbols(v)[1..] == Symbols(v[1..]);
      assert [v[0]] + v[1..] == v;
    } else {
      assert Symbols(v) == "";
    }
  }

  lemma {:induction false} UnpackPack(bytes: seq<Byte>)
    ensures Unpack(Pack(bytes)) == Some(bytes)
  {
    if |bytes| >= 3 {
      UnpackPack(bytes[3..]);
      var v := Pack(bytes);
      assert v[4..] == Pack(bytes[3..]);
      assert First(v[0], v[1]) == bytes[0] && Second(v[1], v[2]) == bytes[1] && Third(v[2], v[3]) == bytes[2];
      assert bytes == [bytes[0], bytes[1], bytes[2]] + bytes[3..];
    } else if |bytes| == 2 {
      assert bytes == [bytes[0], bytes[1]];
    } else if |bytes| == 1 {
      assert bytes == [bytes[0]];
    }
  }

  /** Decoding undoes encoding, for byte strings of every length. */
  lemma DecodeEncode(bytes: seq<Byte>)
    ensures Decode(Encode(bytes)) == Some(bytes)
  {
    EncodeIsPackedSymbols(bytes);
    SymbolsRoundTrip(Pack(bytes));
    UnpackPack(bytes);
  }

  lemma EncodeInjective(a: seq<Byte>, b: seq<Byte>)
    ensures Encode(a) == Encode(b) <==> a == b
  {
    DecodeEncode(a);
    DecodeEncode(b);
  }

  /** Section 4.1 of RFC 7636: a verifier has 43 to 128 characters, all of them unreserved. */
  predicate Unreserved(c: char) {
    'A' <= c <= 'Z' || 'a' <= c <= 'z' || '0' <= c <= '9' || c in "-._~"
  }

  lemma {:induction false} EncodedText(bytes: seq<Byte>)
    ensures |Encode(bytes)| == (4 * |bytes| + 2) / 3
    ensures forall c | c in Encode(bytes) :: Unreserved(c)
  {
    if |bytes| >= 3 {
      EncodedText(bytes[3..]);
    }
  }

  const CAPITALS := "ABCDEFGHIJKLMNOPQRSTUVWXYZ"
  const SMALLS := "abcdefghijklmnopqrstuvwxyz"
  const DIGITS := "0123456789"

  /** The alphabet of section 5 of RFC 4648. */
  lemma SymbolTable(v: Sextet)
    ensures |CAPITALS + SMALLS + DIGITS + "-_"| == 64 && Symbol(v) == (CAPITALS + SMALLS + DIGITS + "-_")[v]
  {
    if v < 26 {
      assert Symbol(v) == CAPITALS[v];
    } else if v < 52 {
      assert Symbol(v) == SMALLS[v - 26];
    } else if v < 62 {
      assert Symbol(v) == DIGITS[v - 52];
    }
  }

  /** The test vectors of section 10 of RFC 4648, unpadded: the prefixes of "foobar". */
  lemma ShortTestVectors()
    ensures Encode([]) == "" && Encode([102]) == "Zg" && Encode([102, 111]) == "Zm8"
    ensures Encode([98]) == "Yg" && Encode([98, 97]) == "YmE"
  {
  }

  lemma TestVectors()
    ensures Encode([102, 111, 111]) == "Zm9v" && Encode([102, 111, 111, 98]) == "Zm9vYg"
    ensures Encode([102, 111, 111, 98, 97]) == "Zm9vYmE" && Encode([102, 111, 111, 98, 97, 114]) == "Zm9vYmFy"
  {
    var foo: seq<Byte>, bar: seq<Byte> := [102, 111, 111], [98, 97, 114];
    ShortTestVectors();
    assert foo[3..] == [] && bar[3..] == [] && Encode(bar) == "YmFy";
    assert (foo + [98])[3..] == [98] && (foo + [98, 97])[3..] == [98, 97] && (foo + bar)[3..] == bar;
    assert foo + [98] == [102, 111, 111, 98] && foo + [98, 97] == [102, 111, 111, 98, 97];
    assert foo + bar == [102, 111, 111, 98, 97, 114];
  }

  // ----- hexadecimal -------------------------------------------------------

  function HexDigit(n: int): char
    requires 0 <= n < 16
  {
    if n < 10 then ('0' as int + n) as char else ('a' as int + n - 10) as char
  }

  lemma HexTable(n: int)
    requires 0 <= n < 16
    ensures [HexDigit(n)] == "0123456789abcdef"[n..n + 1]
  {
  }

  function Hex(bytes: seq<Byte>): (text: string)
    ensures |text| == 2 * |bytes|
  {
    if bytes == [] then ""
    else [HexDigit(bytes[0] / 16), HexDigit(bytes[0] % 16)] + Hex(bytes[1..])
  }

  lemma {:induction false} HexInjective(a: seq<Byte>, b: seq<Byte>)
    ensures Hex(a) == Hex(b) <==> a == b
  {
    if Hex(a) == Hex(b) && a != [] && b != [] {
      var (x, y) := (Hex(a), Hex(b));
      assert x[0] == y[0] && x[1] == y[1] && x[2..] == y[2..];
      HexInjective(a[1..], b[1..]);
      assert a == [a[0]] + a[1..] && b == [b[0]] + b[1..];
    }
  }
}
