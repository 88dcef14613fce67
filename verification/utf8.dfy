/** The byte encoding of runes: section 3 of RFC 3629, with the error results of Go's unicode/utf8. */
module Utf8 {
  import opened Bytes

  /** What decoding yields for an invalid byte; the width is then one. */
  const RUNE_ERROR: Rune := 0xFFFD

  datatype Decoded = Decoded(rune: Rune, width: nat)

  /** Code points that have an encoding of their own. */
  predicate IsScalar(r: Rune) {
    r < 0xD800 || 0xDFFF < r
  }

  /** The runes of decoded text. */
  type Scalar = r: Rune | IsScalar(r)

  predicate IsContinuation(b: Byte) {
    0x80 <= b <= 0xBF
  }

  /** The number of bytes announced by a first byte; 0 when no character starts with it. */
  function Announced(b: Byte): (n: nat)
    ensures n <= 4
  {
    if b < 0x80 then 1
    else if 0xC2 <= b <= 0xDF then 2
    else if 0xE0 <= b <= 0xEF then 3
    else if 0xF0 <= b <= 0xF4 then 4
    else 0
  }

  /** The second byte is restricted after some first bytes (overlong forms, surrogates, above 10FFFF). */
  predicate IsSecondByte(first: Byte, second: Byte) {
    match first
    case 0xE0 => 0xA0 <= second <= 0xBF
    case 0xED => 0x80 <= second <= 0x9F
    case 0xF0 => 0x90 <= second <= 0xBF
    case 0xF4 => 0x80 <= second <= 0x8F
    case _ => IsContinuation(second)
  }

  /** The six payload bits of a continuation byte. */
  function Payload(b: Byte): (n: int)
    ensures IsContinuation(b) ==> 0 <= n < 0x40
  {
    (b as int) - 0x80
  }

  /** utf8.DecodeRune */
  function DecodeRune(data: seq<Byte>): (d: Decoded)
    requires data != []
    ensures 1 <= d.width <= |data| && d.width <= 4
    ensures d.rune < 0x80 <==> data[0] < 0x80
    ensures data[0] < 0x80 ==> d == Decoded(data[0], 1)
    ensures forall i :: 1 <= i < d.width ==> data[i] >= 0x80
    ensures IsScalar(d.rune)
  {
    var first: int := data[0];
    var n := Announced(data[0]);
    if n == 1 then Decoded(data[0], 1)
    else if n == 2 && |data| >= 2 && IsSecondByte(data[0], data[1]) then
      Decoded((first - 0xC0) * 0x40 + Payload(data[1]), 2)
    else if n == 3 && |data| >= 3 && IsSecondByte(data[0], data[1]) && IsContinuation(data[2]) then
      Decoded((first - 0xE0) * 0x1000 + Payload(data[1]) * 0x40 + Payload(data[2]), 3)
    else if n == 4 && |data| >= 4 && IsSecondByte(data[0], data[1]) && IsContinuation(data[2])
      && IsContinuation(data[3]) then
      Decoded((first - 0xF0) * 0x40000 + Payload(data[1]) * 0x1000 + Payload(data[2]) * 0x40 + Payload(data[3]), 4)
    else
      Decoded(RUNE_ERROR, 1)
  }

  /** utf8.FullRune: what follows cannot change how the first rune decodes. */
  predicate FullRune(data: seq<Byte>) {
    data != [] &&
    var n := Announced(data[0]);
    n <= 1 || |data| >= n
    || (|data| >= 2 && !IsSecondByte(data[0], data[1]))
    || (|data| >= 3 && !IsContinuation(data[2]))
  }

  /** No byte of the data starts a character that the data cuts short. */
  ghost predicate EndsOnRuneBoundary(data: seq<Byte>) {
    forall i :: 0 <= i < |data| ==> FullRune(data[i..])
  }

  lemma FullRuneDecodesAlike(data: seq<Byte>, more: seq<Byte>)
    requires FullRune(data)
    ensures DecodeRune(data + more) == DecodeRune(data)
  {
  }

  /** ASCII does not complete a character that is cut short. */
  lemma AsciiCompletesNothing(data: seq<Byte>, more: seq<Byte>)
    requires data != [] && more != [] && more[0] < 0x80
    ensures DecodeRune(data + more) == DecodeRune(data)
  {
    assert (data + more)[|data|] == more[0];
    assert forall i :: 0 <= i < |data| ==> (data + more)[i] == data[i];
  }

  lemma InnerBytesContinue(data: seq<Byte>, i: nat)
    requires data != [] && 1 <= i < DecodeRune(data).width
    ensures IsContinuation(data[i])
  {
  }

  /** Bytes that complete a character which the data cuts short. */
  function Completion(data: seq<Byte>): (more: seq<Byte>)
    requires data != []
  {
    var n := Announced(data[0]);
    if |data| >= n then []
    else if |data| > 1 then seq(n - |data|, _ => 0x80)
    else [if data[0] == 0xE0 then 0xA0 else if data[0] == 0xF0 then 0x90 else 0x80] + seq(n - 2, _ => 0x80)
  }

  lemma CompletionCompletes(data: seq<Byte>)
    requires data != [] && !FullRune(data)
    ensures var more := Completion(data);
      && more != [] && DecodeRune(data + more).width == |data| + |more|
      && forall i :: 0 <= i < |more| ==> IsContinuation(more[i])
    ensures forall i :: 1 <= i < |data| ==> IsContinuation(data[i])
  {
  }

  /** Adjoining two pieces that end on a boundary gives such a piece. */
  lemma BoundaryAppend(a: seq<Byte>, b: seq<Byte>)
    requires EndsOnRuneBoundary(a) && EndsOnRuneBoundary(b)
    ensures EndsOnRuneBoundary(a + b)
  {
    forall i | 0 <= i < |a + b| ensures FullRune((a + b)[i..]) {
      if i < |a| {
        assert (a + b)[i..] == a[i..] + b;
        assert FullRune(a[i..]);
      } else {
        assert (a + b)[i..] == b[i - |a|..];
      }
    }
  }

  /** What bytes.Buffer.WriteRune appends. */
  function EncodeRune(r: Rune): (bytes: seq<Byte>)
    ensures 1 <= |bytes| <= 4
  {
    if r < 0x80 then [r]
    else if r < 0x800 then [0xC0 + r / 0x40, 0x80 + r % 0x40]
    else if !IsScalar(r) then [0xEF, 0xBF, 0xBD]
    else if r < 0x10000 then [0xE0 + r / 0x1000, 0x80 + r / 0x40 % 0x40, 0x80 + r % 0x40]
    else [0xF0 + r / 0x40000, 0x80 + r / 0x1000 % 0x40, 0x80 + r / 0x40 % 0x40, 0x80 + r % 0x40]
  }

  /** The digits of a number in base 64 determine it. */
  lemma SplitBase64(r: nat)
    ensures r == r / 0x40 * 0x40 + r % 0x40
    ensures r / 0x40 == r / 0x1000 * 0x40 + r / 0x40 % 0x40
    ensures r / 0x1000 == r / 0x40000 * 0x40 + r / 0x1000 % 0x40
  {
  }

  /** The shape of an encoding: a first byte that announces the length, then continuation bytes. */
  lemma EncodingShape(r: Rune)
    requires IsScalar(r)
    ensures var e := EncodeRune(r);
      && Announced(e[0]) == |e|
      && (|e| >= 2 ==> IsSecondByte(e[0], e[1]))
      && (forall i :: 1 <= i < |e| ==> IsContinuation(e[i]))
  {
    SplitBase64(r);
  }

  lemma EncodingDecodes(r: Rune)
    requires IsScalar(r)
    ensures DecodeRune(EncodeRune(r)) == Decoded(r, |EncodeRune(r)|)
  {
    EncodingShape(r);
    SplitBase64(r);
  }

  /** Decoding undoes encoding, whatever follows, and an encoding is never cut short. */
  lemma EncodingRoundTrip(r: Rune, rest: seq<Byte>)
    requires IsScalar(r)
    ensures DecodeRune(EncodeRune(r) + rest) == Decoded(r, |EncodeRune(r)|)
    ensures EndsOnRuneBoundary(EncodeRune(r))
    ensures r < 0x80 <==> EncodeRune(r)[|EncodeRune(r)| - 1] < 0x80
  {
    var e := EncodeRune(r);
    EncodingShape(r);
    EncodingDecodes(r);
    FullRuneDecodesAlike(e, rest);
    forall i | 0 <= i < |e| ensures FullRune(e[i..]) {
      assert e[i..][0] == e[i];
    }
  }
}
