/**
 * Byte and value encodings the FHE hooks produce: `byte.toString(16).padStart(2, "0")` joined
 * behind `0x` (hooks/useFHEOperations.ts, `encrypt`), and the ABI encoding of a `(uint8, uint8)`
 * tuple that `publicDecryptMultiple` builds when the relayer gives no encoding of its own.
 */
module Encoding {
  import opened Wrappers
  import opened Js
  import opened Strings

  type byte = x: int | 0 <= x < 256

  /** The lower-case digit `Number.prototype.toString(16)` writes for `d`. */
  function HexDigit(d: int): (c: char)
    requires 0 <= d < 16
    ensures IsHexDigit(c) && DigitValue(c) == d
  {
    if d < 10 then '0' + d as char else 'a' + (d - 10) as char
  }

  predicate IsHexDigit(c: char) {
    '0' <= c <= '9' || 'a' <= c <= 'f'
  }

  function DigitValue(c: char): (d: int)
    requires IsHexDigit(c)
    ensures 0 <= d < 16
  {
    if c <= '9' then (c - '0') as int else (c - 'a') as int + 10
  }

  /** `b.toString(16)`: no leading zeros. */
  function ToString16(b: byte): string {
    if b < 16 then [HexDigit(b)] else [HexDigit(b / 16), HexDigit(b % 16)]
  }

  /** `s.padStart(width, fill)` for a one-character `fill`. */
  function PadStart(s: string, width: nat, fill: char): (r: string)
    ensures |r| == if |s| < width then width else |s|
    ensures r[|r| - |s|..] == s
    decreases width - |s|
  {
    if |s| < width then PadStart([fill] + s, width, fill) else s
  }

  /** One byte as two lower-case hex digits, high nibble first. */
  function ByteHex(b: byte): (r: string)
    ensures |r| == 2 && IsHexDigit(r[0]) && IsHexDigit(r[1])
  {
    [HexDigit(b / 16), HexDigit(b % 16)]
  }

  /** `b.toString(16).padStart(2, "0")` is the byte's two hex digits. */
  lemma PaddedIsByteHex(b: byte)
    ensures PadStart(ToString16(b), 2, '0') == ByteHex(b)
  {
    var digits := ToString16(b);
    if b < 16 {
      assert PadStart(digits, 2, '0') == PadStart(['0'] + digits, 2, '0');
      assert b / 16 == 0 && b % 16 == b;
    }
  }

  /** The digits of the bytes, byte after byte: `bytes.map(ByteHex).join("")`. */
  function HexBody(bytes: seq<byte>): (r: string)
    ensures |r| == 2 * |bytes|
  {
    if bytes == [] then "" else ByteHex(bytes[0]) + HexBody(bytes[1..])
  }

  /** The per-byte pieces, `bytes.map(ByteHex)`. */
  function Pieces(bytes: seq<byte>): (r: seq<string>)
    ensures |r| == |bytes|
    ensures forall i | 0 <= i < |bytes| :: r[i] == ByteHex(bytes[i])
  {
    if bytes == [] then [] else [ByteHex(bytes[0])] + Pieces(bytes[1..])
  }

  /** Joining the per-byte pieces with "" is the same as concatenating them. */
  lemma {:induction false} JoinedIsBody(bytes: seq<byte>)
    ensures Join(Pieces(bytes), "") == HexBody(bytes)
  {
    if |bytes| == 1 {
      assert Pieces(bytes) == [ByteHex(bytes[0])];
      assert HexBody(bytes) == ByteHex(bytes[0]) + HexBody([]);
    } else if |bytes| > 1 {
      var parts := Pieces(bytes);
      assert parts == [ByteHex(bytes[0])] + Pieces(bytes[1..]);
      assert parts[1..] == Pieces(bytes[1..]);
      JoinedIsBody(bytes[1..]);
      assert Join(parts, "") == parts[0] + "" + Join(parts[1..], "");
      assert HexBody(bytes) == ByteHex(bytes[0]) + HexBody(bytes[1..]);
    }
  }

  /** The `0x`-prefixed encoding of a handle or an input proof. */
  function EncodeHex(bytes: seq<byte>): (r: string)
    ensures |r| == 2 + 2 * |bytes| && StartsWith(r, "0x")
  {
    JoinedIsBody(bytes);
    "0x" + Join(Pieces(bytes), "")
  }

  /** Reads back what `HexBody` wrote. */
  function DecodeBody(s: string): (r: Option<seq<byte>>)
    ensures r.Some? ==> 2 * |r.value| == |s|
  {
    if s == [] then Some([])
    else if |s| < 2 || !IsHexDigit(s[0]) || !IsHexDigit(s[1]) then None
    else match DecodeBody(s[2..])
      case None => None
      case Some(rest) => Some([PairValue(s[0], s[1])] + rest)
  }

  /** The byte two hex digits stand for, high digit first. */
  function PairValue(hi: char, lo: char): byte
    requires IsHexDigit(hi) && IsHexDigit(lo)
  {
    DigitValue(hi) * 16 + DigitValue(lo)
  }

  /** Reads back what `EncodeHex` wrote; anything else is `None`. */
  function DecodeHex(s: string): Option<seq<byte>> {
    if StartsWith(s, "0x") then DecodeBody(s[2..]) else None
  }

  /** One byte's two digits read back: the high nibble times 16 plus the low one. */
  lemma ByteHexValue(b: byte)
    ensures IsHexDigit(ByteHex(b)[0]) && IsHexDigit(ByteHex(b)[1])
    ensures PairValue(ByteHex(b)[0], ByteHex(b)[1]) == b
  {
    var h, l := b / 16, b % 16;
    assert DigitValue(ByteHex(b)[0]) == h && DigitValue(ByteHex(b)[1]) == l;
    assert b == h * 16 + l;
  }

  /** Decoding reads one byte's two digits off the front and goes on with the rest. */
  lemma DecodeStep(b: byte, t: string)
    ensures DecodeBody(ByteHex(b) + t) == if DecodeBody(t).None? then None else Some([b] + DecodeBody(t).value)
  {
    var s := ByteHex(b) + t;
    assert s[0] == ByteHex(b)[0] && s[1] == ByteHex(b)[1];
    assert s[2..] == t;
    ByteHexValue(b);
  }

  lemma {:induction false} BodyRoundTrip(bytes: seq<byte>)
    ensures DecodeBody(HexBody(bytes)) == Some(bytes)
  {
    if bytes != [] {
      var b, rest := bytes[0], bytes[1..];
      assert HexBody(bytes) == ByteHex(b) + HexBody(rest);
      DecodeStep(b, HexBody(rest));
      BodyRoundTrip(rest);
      assert bytes == [b] + rest;
    }
  }

  /** The hex encoding loses nothing: the bytes come back, so distinct bytes give distinct strings. */
  lemma HexRoundTrip(bytes: seq<byte>)
    ensures DecodeHex(EncodeHex(bytes)) == Some(bytes)
  {
    var s := EncodeHex(bytes);
    JoinedIsBody(bytes);
    assert s[2..] == HexBody(bytes);
    BodyRoundTrip(bytes);
  }

  /** Every character of `s` is the digit zero. */
  predicate AllZeros(s: string) {
    forall i | 0 <= i < |s| :: s[i] == '0'
  }

  /** `n` zero digits. */
  function Zeros(n: nat): (r: string)
    ensures |r| == n && AllZeros(r)
  {
    if n == 0 then "" else "0" + Zeros(n - 1)
  }

  /** One 32-byte big-endian ABI word holding a `uint8`: 62 zero digits, then the byte. */
  function Word(b: byte): (r: string)
    ensures |r| == 64 && r[..62] == Zeros(62) && r[62..] == ByteHex(b)
  {
    Zeros(62) + ByteHex(b)
  }

  const LengthMismatch := "types/values length mismatch"
  const OutOfBounds := "value out-of-bounds"
  const NotInteger := "underflow"

  /** The encoding of two bytes: `0x`, then one word per value. */
  function Pair(yes: byte, no: byte): (r: string)
    ensures |r| == 130 && r[..2] == "0x" && r[2..66] == Word(yes) && r[66..] == Word(no)
  {
    var r := "0x" + Word(yes) + Word(no);
    assert r[2..66] == Word(yes);
    r
  }

  /** A number that fits a `uint8`. */
  predicate IsUint8(v: Numeric) {
    v.Int? && 0 <= v.n < 256
  }

  /**
   * `defaultAbiCoder().encode(["uint8", "uint8"], values)`: the count is checked, then each value;
   * NaN is refused as not an integer and anything outside 0-255 as out of bounds.
   */
  function AbiEncodeUint8Pair(values: seq<Numeric>): (r: Result<string, Failure>)
    ensures r.Ok? <==> |values| == 2 && IsUint8(values[0]) && IsUint8(values[1])
    ensures r.Ok? ==> |r.value| == 130 && StartsWith(r.value, "0x")
    ensures |values| != 2 ==> r == Err(Raise(LengthMismatch))
    ensures |values| == 2 && values[0].NaN? ==> r == Err(Raise(NotInteger))
  {
    if |values| != 2 then Err(Raise(LengthMismatch))
    else if values[0].NaN? then Err(Raise(NotInteger))
    else if !(0 <= values[0].n < 256) then Err(Raise(OutOfBounds))
    else if values[1].NaN? then Err(Raise(NotInteger))
    else if !(0 <= values[1].n < 256) then Err(Raise(OutOfBounds))
    else Ok(Pair(values[0].n, values[1].n))
  }

  /** The `uint8` one ABI word holds: 62 zero digits, then two hex digits; otherwise none. */
  function WordValue(w: string): (r: Option<byte>)
    requires |w| == 64
  {
    if !AllZeros(w[..62]) then None
    else match DecodeBody(w[62..])
      case Some(bytes) => Some(bytes[0])
      case None => None
  }

  /** The contract's `abi.decode(cleartexts, (uint8, uint8))`. */
  function AbiDecodeUint8Pair(s: string): Option<(byte, byte)> {
    if |s| != 130 || s[..2] != "0x" then None
    else match (WordValue(s[2..66]), WordValue(s[66..]))
      case (Some(yes), Some(no)) => Some((yes, no))
      case _ => None
  }

  /** A word reads back as the byte it was written from. */
  lemma WordRoundTrip(b: byte)
    ensures WordValue(Word(b)) == Some(b)
  {
    var w := Word(b);
    assert AllZeros(w[..62]);
    DecodeStep(b, "");
    assert ByteHex(b) + "" == w[62..];
  }

  /** What the coder writes, the contract reads back. */
  lemma AbiRoundTrip(yes: byte, no: byte)
    ensures AbiEncodeUint8Pair([Int(yes), Int(no)]).Ok?
    ensures AbiDecodeUint8Pair(AbiEncodeUint8Pair([Int(yes), Int(no)]).value) == Some((yes, no))
  {
    var s := Pair(yes, no);
    assert AbiEncodeUint8Pair([Int(yes), Int(no)]) == Ok(s);
    WordRoundTrip(yes);
    WordRoundTrip(no);
  }
}
