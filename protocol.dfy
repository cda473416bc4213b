/**
 * The Decent Scale wire protocol: the fixed 7-byte command frames the
 * client writes, the XOR checksum, and the validation and decoding of the
 * notification frames the scale pushes.
 *
 * Weights are integer counts of tenths of a gram (the raw signed 16-bit
 * value carried on the wire); the client's division by ten is not modelled.
 */
module Protocol {

  type Byte = bv8
  type Frame = seq<Byte>

  /** Byte 0 of every frame: the model marker. */
  const ModelByte: Byte := 0x03

  /** Byte 1 values the client accepts in a notification. */
  const WeightTypes: seq<Byte> := [0xCA, 0xCE]

  /** Lowest and highest weight a frame can carry, in tenths of a gram. */
  const MinRaw: int := -0x8000
  const MaxRaw: int := 0x7FFF

  // ---------------------------------------------------------------------
  // Checksum
  // ---------------------------------------------------------------------

  /** Whether bit `j` (0 is the least significant) of `b` is set. */
  predicate Bit(b: Byte, j: nat)
    requires j < 8
  {
    b & Mask(j) != 0
  }

  /** The byte with only bit `j` set. */
  function Mask(j: nat): Byte
    requires j < 8
  {
    match j
      case 0 => 0x01
      case 1 => 0x02
      case 2 => 0x04
      case 3 => 0x08
      case 4 => 0x10
      case 5 => 0x20
      case 6 => 0x40
      case _ => 0x80
  }

  /** Exclusive-or sets a bit exactly when one of its operands has it. */
  lemma BitXor(x: Byte, y: Byte, j: nat)
    requires j < 8
    ensures Bit(x ^ y, j) <==> Bit(x, j) != Bit(y, j)
  {
    var m := Mask(j);
    assert m == 0x01 || m == 0x02 || m == 0x04 || m == 0x08 || m == 0x10 || m == 0x20 || m == 0x40 || m == 0x80;
    assert (x ^ y) & m == (x & m) ^ (y & m);
  }

  /** How many bytes of `s` have bit `j` set. */
  function BitCount(s: seq<Byte>, j: nat): nat
    requires j < 8
  {
    if s == [] then 0 else BitCount(s[..|s| - 1], j) + (if Bit(s[|s| - 1], j) then 1 else 0)
  }

  /** Left fold of exclusive-or over a non-empty byte sequence
      (`functools.reduce(operator.xor, s)`). Each bit of the result is the
      parity of that bit over all the bytes, whatever their order. */
  function XorAll(s: seq<Byte>): (r: Byte)
    requires |s| > 0
    ensures forall j :: 0 <= j < 8 ==> (Bit(r, j) <==> BitCount(s, j) % 2 == 1)
  {
    if |s| == 1 then
      assert forall j :: 0 <= j < 8 ==> BitCount(s, j) == (if Bit(s[0], j) then 1 else 0) by {
        assert s[..0] == [];
      }
      s[0]
    else
      var n := |s|;
      var pre := XorAll(s[..n - 1]);
      assert forall j :: 0 <= j < 8 ==> (Bit(pre ^ s[n - 1], j) <==> BitCount(s, j) % 2 == 1) by {
        forall j | 0 <= j < 8 { BitXor(pre, s[n - 1], j); }
      }
      pre ^ s[n - 1]
  }

  /** A frame carries a correct checksum when its last byte is the XOR of
      all the bytes before it; equivalently, when the XOR of the whole
      frame is zero. */
  predicate ChecksumOk(f: Frame)
    ensures ChecksumOk(f) <==> |f| >= 2 && XorAll(f) == 0
  {
    |f| >= 2 && XorAll(f[..|f| - 1]) == f[|f| - 1]
  }

  /** Replacing one byte changes the fold by the difference of old and new. */
  lemma {:induction false} XorAllUpdate(s: seq<Byte>, k: nat, b: Byte)
    requires k < |s|
    ensures XorAll(s[k := b]) == XorAll(s) ^ s[k] ^ b
  {
    var t := s[k := b];
    if |s| == 1 {
    } else if k == |s| - 1 {
      assert t[..|t| - 1] == s[..|s| - 1];
    } else {
      assert t[..|t| - 1] == s[..|s| - 1][k := b];
      XorAllUpdate(s[..|s| - 1], k, b);
    }
  }

  /** Folding one more byte onto a sequence. */
  lemma XorAllSnoc(t: seq<Byte>, x: Byte)
    requires |t| > 0
    ensures XorAll(t + [x]) == XorAll(t) ^ x
  {
    assert (t + [x])[..|t|] == t;
  }

  /** The fold of six bytes, written out. */
  lemma XorAllSix(a: Byte, b: Byte, c: Byte, d: Byte, e: Byte, f: Byte)
    ensures XorAll([a, b, c, d, e, f]) == a ^ b ^ c ^ d ^ e ^ f
  {
    assert [a] + [b] == [a, b];
    XorAllSnoc([a], b);
    assert [a, b] + [c] == [a, b, c];
    XorAllSnoc([a, b], c);
    assert [a, b, c] + [d] == [a, b, c, d];
    XorAllSnoc([a, b, c], d);
    assert [a, b, c, d] + [e] == [a, b, c, d, e];
    XorAllSnoc([a, b, c, d], e);
    assert [a, b, c, d, e] + [f] == [a, b, c, d, e, f];
    XorAllSnoc([a, b, c, d, e], f);
  }

  /** A frame whose last byte is the fold of the rest passes the check. */
  lemma AppendChecksum(prefix: seq<Byte>)
    requires |prefix| > 0
    ensures ChecksumOk(prefix + [XorAll(prefix)])
  {
    assert (prefix + [XorAll(prefix)])[..|prefix|] == prefix;
  }

  // ---------------------------------------------------------------------
  // Commands
  // ---------------------------------------------------------------------

  /** Which of the three tare frames is meant. */
  type TareIndex = i: nat | i < 3

  datatype Command =
    | Tare(index: TareIndex)
    | LedOn
    | LedOff
    | StartTimer
    | StopTimer
    | ResetTimer

  /** The fixed byte encoding of each command. */
  function Encode(c: Command): (f: Frame)
    ensures |f| == 7
  {
    match c
      case Tare(0) => [0x03, 0x0F, 0x00, 0x00, 0x00, 0x00, 0x0C]
      case Tare(1) => [0x03, 0x0F, 0x01, 0x00, 0x00, 0x00, 0x0D]
      case Tare(_) => [0x03, 0x0F, 0x02, 0x00, 0x00, 0x00, 0x0E]
      case LedOn => [0x03, 0x0A, 0x01, 0x01, 0x00, 0x00, 0x09]
      case LedOff => [0x03, 0x0A, 0x00, 0x00, 0x00, 0x00, 0x09]
      case StartTimer => [0x03, 0x0B, 0x03, 0x00, 0x00, 0x00, 0x0B]
      case StopTimer => [0x03, 0x0B, 0x00, 0x00, 0x00, 0x00, 0x08]
      case ResetTimer => [0x03, 0x0B, 0x02, 0x00, 0x00, 0x00, 0x0A]
  }

  /** Every command frame is seven bytes long, starts with the model marker
      and ends with the XOR of its first six bytes, so it would pass the
      same checksum test the client applies to notifications. */
  lemma CommandFrameValid(c: Command)
    ensures |Encode(c)| == 7 && Encode(c)[0] == ModelByte
    ensures Encode(c)[6] == XorAll(Encode(c)[..6])
    ensures ChecksumOk(Encode(c))
  {
    var f := Encode(c);
    assert f[..6] == [f[0], f[1], f[2], f[3], f[4], f[5]];
    XorAllSix(f[0], f[1], f[2], f[3], f[4], f[5]);
  }

  /** The three tare frames agree everywhere except at the index byte
      (byte 2, which holds the variant number) and the checksum (byte 6). */
  lemma TareVariants(i: TareIndex, j: TareIndex)
    ensures Encode(Tare(i))[2] as int == i
    ensures forall k :: 0 <= k < 7 && k != 2 && k != 6 ==> Encode(Tare(i))[k] == Encode(Tare(j))[k]
    ensures i != j ==> Encode(Tare(i))[2] != Encode(Tare(j))[2] && Encode(Tare(i))[6] != Encode(Tare(j))[6]
  {
  }

  // ---------------------------------------------------------------------
  // Signed big-endian 16-bit values
  // ---------------------------------------------------------------------

  /** `int.from_bytes([hi, lo], byteorder='big', signed=True)`. */
  function SignedBe16(hi: Byte, lo: Byte): (w: int)
    ensures MinRaw <= w <= MaxRaw
  {
    var u := (hi as int) * 256 + lo as int;
    if u >= 0x8000 then u - 0x10000 else u
  }

  /** The two bytes that carry `w` in two's complement, high byte first. */
  function Be16(w: int): (bytes: seq<Byte>)
    requires MinRaw <= w <= MaxRaw
    ensures |bytes| == 2
  {
    var u := if w < 0 then w + 0x10000 else w;
    [ByteOf(u / 256), ByteOf(u % 256)]
  }

  /** The byte that stands for the number `x`. */
  function ByteOf(x: int): (b: Byte)
    requires 0 <= x < 256
    ensures b as int == x
  {
    x as Byte
  }

  /** Decoding the encoding of a weight gives the weight back. */
  lemma Be16RoundTrip(w: int)
    requires MinRaw <= w <= MaxRaw
    ensures SignedBe16(Be16(w)[0], Be16(w)[1]) == w
  {
    var u := if w < 0 then w + 0x10000 else w;
    var q, r := u / 256, u % 256;
    assert 0 <= q < 256 && 0 <= r < 256 && u == q * 256 + r;
    var bytes := Be16(w);
    assert bytes[0] as int == q && bytes[1] as int == r;
  }

  /** Encoding the decoding of two bytes gives the bytes back. */
  lemma SignedBe16RoundTrip(hi: Byte, lo: Byte)
    ensures Be16(SignedBe16(hi, lo)) == [hi, lo]
  {
    var h, l := hi as int, lo as int;
    var u := h * 256 + l;
    var w := SignedBe16(hi, lo);
    assert (if w < 0 then w + 0x10000 else w) == u;
    assert u / 256 == h && u % 256 == l;
  }

  // ---------------------------------------------------------------------
  // Notifications
  // ---------------------------------------------------------------------

  /** What the notification handler makes of one pushed frame. A frame is
      either accepted with its weight, rejected at the first test it fails
      (tests run in the order listed), or it makes the handler index past
      its end. */
  datatype Verdict =
    | Accepted(weight: int)
    | BadModel
    | BadType
    | BadLength
    | BadChecksum
    | IndexError

  /** The four acceptance conditions, stated independently of their order. */
  predicate WellFormed(data: Frame)
  {
    && (|data| == 7 || |data| == 10)
    && data[0] == ModelByte
    && data[1] in WeightTypes
    && ChecksumOk(data)
  }

  /** Validation and decoding of one notification, test by test in the
      order the handler makes them. */
  function Inspect(data: Frame): (v: Verdict)
    ensures v.Accepted? ==> MinRaw <= v.weight <= MaxRaw
  {
    if |data| == 0 then IndexError
    else if data[0] != ModelByte then BadModel
    else if |data| < 2 then IndexError
    else if data[1] !in WeightTypes then BadType
    else if |data| != 7 && |data| != 10 then BadLength
    else
      // the weight is decoded before the checksum is tested
      var w := SignedBe16(data[2], data[3]);
      if XorAll(data[..|data| - 1]) != data[|data| - 1] then BadChecksum
      else Accepted(w)
  }

  /** A notification is accepted exactly when it is well formed, and then
      its weight is the signed big-endian value of bytes 2 and 3. */
  lemma AcceptedIffWellFormed(data: Frame)
    ensures Inspect(data).Accepted? <==> WellFormed(data)
    ensures Inspect(data).Accepted? ==> Inspect(data).weight == SignedBe16(data[2], data[3])
  {
  }

  /** The handler crashes only on an empty frame, or on a one-byte frame
      whose byte is the model marker. */
  lemma IndexErrorIff(data: Frame)
    ensures Inspect(data) == IndexError <==> |data| == 0 || (|data| == 1 && data[0] == ModelByte)
  {
  }

  /** A notification frame of the given type carrying `w`, with `extra`
      uninterpreted bytes after the weight and a correct checksum. */
  function WeightFrame(kind: Byte, w: int, extra: seq<Byte>): (f: Frame)
    requires MinRaw <= w <= MaxRaw
    ensures |f| == 5 + |extra|
    ensures f[0] == ModelByte && f[1] == kind && f[2..4] == Be16(w)
  {
    var prefix := [ModelByte, kind] + Be16(w) + extra;
    prefix + [XorAll(prefix)]
  }

  /** Every weight in range survives encoding into a 7- or 10-byte frame and
      decoding by the handler. */
  lemma {:induction false} WeightFrameRoundTrip(kind: Byte, w: int, extra: seq<Byte>)
    requires kind in WeightTypes
    requires MinRaw <= w <= MaxRaw
    requires |extra| == 2 || |extra| == 5
    ensures Inspect(WeightFrame(kind, w, extra)) == Accepted(w)
  {
    var prefix := [ModelByte, kind] + Be16(w) + extra;
    var f := WeightFrame(kind, w, extra);
    AppendChecksum(prefix);
    assert f[..|f| - 1] == prefix;
    assert f[2] == Be16(w)[0] && f[3] == Be16(w)[1];
    Be16RoundTrip(w);
  }

  /** Changing any single byte of an accepted frame makes it rejected. */
  lemma {:induction false} SingleByteCorruptionRejected(data: Frame, k: nat, b: Byte)
    requires Inspect(data).Accepted?
    requires k < |data| && b != data[k]
    ensures !Inspect(data[k := b]).Accepted?
  {
    var n := |data|;
    var bad := data[k := b];
    if k < n - 1 {
      assert bad[..n - 1] == data[..n - 1][k := b];
      XorAllUpdate(data[..n - 1], k, b);
    }
  }

  /** The two worked examples: `00 64` is 10.0 g and `FF FB` is -0.5 g. */
  lemma DecodeExamples()
    ensures SignedBe16(0x00, 0x64) == 100
    ensures SignedBe16(0xFF, 0xFB) == -5
    ensures Inspect([0x03, 0xCE, 0x00, 0x64, 0x00, 0x00, 0xA9]) == Accepted(100)
  {
    var f: Frame := [0x03, 0xCE, 0x00, 0x64, 0x00, 0x00, 0xA9];
    assert f[..6] == [0x03, 0xCE, 0x00, 0x64, 0x00, 0x00];
    XorAllSix(0x03, 0xCE, 0x00, 0x64, 0x00, 0x00);
  }
}
