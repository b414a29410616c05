/** Fixed-width integers as the driver handles them: a 16-bit C integer is
    a bit pattern of a high and a low byte, read signed or unsigned by
    two's complement, and a native 16-bit load reads such a pattern straight
    out of a byte buffer in the host's byte order.
 */
module Bytes {

  type byte = bv8
  /** The bit pattern of a 16-bit C integer, signed or unsigned, as its
      high and its low byte. */
  datatype Word = Word(hi: byte, lo: byte)
  type int8 = x: int | -128 <= x < 128
  type int16 = x: int | -32768 <= x < 32768
  type uint16 = x: int | 0 <= x < 65536

  /** The unsigned value of two bytes sent high byte first. */
  function BigEndian16(hi: byte, lo: byte): (w: uint16)
  {
    256 * (hi as int) + lo as int
  }

  /** Two's-complement reading of a 16-bit value. */
  function ToInt16(w: uint16): (v: int16)
  {
    if w < 32768 then w else w - 65536
  }

  /** Two's-complement reading of one byte: the sign extension of an `int8`. */
  function ToInt8(b: byte): (v: int8)
  {
    if b as int < 128 then b as int else b as int - 256
  }

  /** The value of a pattern read as `unsigned short`: positional, high byte
      worth 256. */
  function Unsigned16(w: Word): (u: uint16)
  {
    BigEndian16(w.hi, w.lo)
  }

  /** The value of a pattern read as `short`. */
  function Signed16(w: Word): (v: int16)
  {
    ToInt16(Unsigned16(w))
  }

  /** Distinct patterns have distinct values, read signed or unsigned. */
  lemma ValueDeterminesWord(a: Word, b: Word)
    ensures Unsigned16(a) == Unsigned16(b) <==> a == b
    ensures Signed16(a) == Signed16(b) <==> a == b
  {
    if Signed16(a) == Signed16(b) {
      ToInt16Injective(Unsigned16(a), Unsigned16(b));
    }
    if Unsigned16(a) == Unsigned16(b) {
      UnsignedInjective(a, b);
    }
  }

  lemma ToInt16Injective(u: uint16, v: uint16)
    requires ToInt16(u) == ToInt16(v)
    ensures u == v
  {
  }

  lemma UnsignedInjective(a: Word, b: Word)
    requires Unsigned16(a) == Unsigned16(b)
    ensures a == b
  {
    SplitValue(a.hi, b.hi, a.lo, b.lo);
    ByteInjective(a.hi, b.hi);
    ByteInjective(a.lo, b.lo);
  }

  lemma SplitValue(x: byte, y: byte, u: byte, v: byte)
    requires 256 * (x as int) + (u as int) == 256 * (y as int) + (v as int)
    ensures x as int == y as int && u as int == v as int
  {
  }

  lemma ByteInjective(x: byte, y: byte)
    requires x as int == y as int
    ensures x == y
  {
  }

  /** The byte whose unsigned value is `x` (see `ToByteValue`), counted up
      one at a time so that the solver never converts a whole integer at
      once. */
  function ToByte(x: int): (b: byte)
    requires 0 <= x < 256
  {
    if x == 0 then 0 else ToByte(x - 1) + 1
  }

  lemma {:induction false} ToByteValue(x: int)
    requires 0 <= x < 256
    ensures ToByte(x) as int == x
  {
    if x > 0 {
      ToByteValue(x - 1);
      NoCarry(ToByte(x - 1));
    }
  }

  lemma NoCarry(b: byte)
    requires b < 0xFF
    ensures (b + 1) as int == b as int + 1
  {
  }

  /** `(uint8)x` for any C integer `x`: the low eight bits, that is `x`
      modulo 256 (see `Truncate8Value`). */
  function Truncate8(x: int): (b: byte)
    decreases if x < 0 then 256 - x else x
  {
    if x < 0 then Truncate8(x + 256)
    else if x < 256 then ToByte(x)
    else Truncate8(x - 256)
  }

  /** The value of a truncated integer is its remainder modulo 256 (Dafny's
      `%` never yields a negative remainder). */
  lemma {:induction false} Truncate8Value(x: int)
    ensures Truncate8(x) as int == x % 256
    decreases if x < 0 then 256 - x else x
  {
    if x < 0 {
      Truncate8Value(x + 256);
      assert (x + 256) % 256 == x % 256;
    } else if x < 256 {
      ToByteValue(x);
    } else {
      Truncate8Value(x - 256);
      assert (x - 256) % 256 == x % 256;
    }
  }

  /** `(uint8)(v >> 8)`: the arithmetic shift rounds toward minus infinity,
      which is Dafny's division by a positive divisor. */
  function HighByte(v: int16): (b: byte)
  {
    Truncate8(v / 256)
  }

  /** `(uint8)(v & 0xff)`. */
  function LowByte(v: int16): (b: byte)
  {
    Truncate8(v)
  }

  /** The bit pattern of a `short`, as `drive` splits it. */
  function WordOf(v: int16): (w: Word)
  {
    Word(HighByte(v), LowByte(v))
  }

  /** Splitting a `short` into its high and low byte and reading the two
      back high byte first as two's complement gives the `short` again. */
  lemma WordOfRoundTrip(v: int16)
    ensures Signed16(WordOf(v)) == v
  {
    SplitJoin(v);
  }

  /** Every pattern is the split of exactly one `short`: its signed reading. */
  lemma WordOfSigned(w: Word)
    ensures WordOf(Signed16(w)) == w
  {
    WordOfRoundTrip(Signed16(w));
    ValueDeterminesWord(WordOf(Signed16(w)), w);
  }

  lemma SplitJoin(v: int16)
    ensures Unsigned16(WordOf(v)) == if v < 0 then v + 65536 else v
  {
    var q, r := v / 256, v % 256;
    assert v == 256 * q + r && 0 <= r < 256;
    assert -128 <= q < 128;
    var hi := if q < 0 then q + 256 else q;
    assert q % 256 == hi;
    Truncate8Value(q);
    Truncate8Value(v);
    assert WordOf(v).hi as int == hi && WordOf(v).lo as int == r;
    assert 256 * hi + r == if v < 0 then v + 65536 else v;
  }

  /** The bit pattern of an `unsigned short`: the pattern of the `short`
      with the same two bytes. */
  function UnsignedWordOf(u: uint16): (w: Word)
    ensures Unsigned16(w) == u
  {
    SplitJoin(ToInt16(u));
    WordOf(ToInt16(u))
  }

  /** Every pattern is the unsigned split of exactly one value: its unsigned
      reading. */
  lemma UnsignedWordOfUnsigned(w: Word)
    ensures UnsignedWordOf(Unsigned16(w)) == w
  {
    WordOfSigned(w);
  }

  /** The byte that `(int8)t` stores: `t` modulo 256, whose sign extension
      is `t` again. */
  function Int8Byte(t: int8): (b: byte)
    ensures ToInt8(b) == t
  {
    Truncate8Value(t);
    Truncate8(t)
  }

  /** Every byte is the store of its own sign extension. */
  lemma Int8ByteOfToInt8(b: byte)
    ensures Int8Byte(ToInt8(b)) == b
  {
    Truncate8Value(ToInt8(b));
    ByteInjective(Int8Byte(ToInt8(b)), b);
  }

  /** The byte order of a machine's 16-bit loads and stores. */
  datatype ByteOrder = LittleEndian | BigEndian

  /** Named assumption: the driver runs on a little-endian (x86) host, so a
      native 16-bit load reads the byte at the lower address as the low byte.
      The Open Interface itself sends every 16-bit sensor value high byte
      first; see `HostLoadSwapsWireBytes`. */
  const HostOrder: ByteOrder := LittleEndian

  /** A native 16-bit load of the two bytes at consecutive addresses
      `first`, `second`. */
  function NativeWord(order: ByteOrder, first: byte, second: byte): (w: Word)
  {
    match order
    case LittleEndian => Word(second, first)
    case BigEndian => Word(first, second)
  }

  /** The two bytes, in address order, that a native 16-bit store of `w` writes. */
  function NativeBytes(order: ByteOrder, w: Word): (bs: seq<byte>)
    ensures |bs| == 2
  {
    match order
    case LittleEndian => [w.lo, w.hi]
    case BigEndian => [w.hi, w.lo]
  }

  /** `*((uint16*)(raw + k))` and `*((int16*)(raw + k))` on the host: both
      load the same pattern and differ only in how it is read. */
  function WordAt(raw: seq<byte>, k: nat): (w: Word)
    requires k + 1 < |raw|
  {
    NativeWord(HostOrder, raw[k], raw[k + 1])
  }

  /** `*((int16*)(raw + k))` on the host. */
  function SignedAt(raw: seq<byte>, k: nat): (v: int16)
    requires k + 1 < |raw|
  {
    Signed16(WordAt(raw, k))
  }

  /** `*((uint16*)(raw + k))` on the host. */
  function UnsignedAt(raw: seq<byte>, k: nat): (u: uint16)
    requires k + 1 < |raw|
  {
    Unsigned16(WordAt(raw, k))
  }

  /** On the assumed host the 16-bit loads at `k` weigh the byte at `k + 1`
      by 256 and the byte at `k` by 1; the signed load is negative exactly
      when bit 7 of the byte at `k + 1` is set. */
  lemma LoadsAt(raw: seq<byte>, k: nat)
    requires k + 1 < |raw|
    ensures UnsignedAt(raw, k) == 256 * (raw[k + 1] as int) + raw[k] as int
    ensures SignedAt(raw, k) == UnsignedAt(raw, k) - (if raw[k + 1] >= 0x80 then 65536 else 0)
    ensures SignedAt(raw, k) < 0 <==> raw[k + 1] >= 0x80
  {
  }

  /** On the assumed host a native load of the two bytes the robot sends for
      a sensor value `hi, lo` yields the byte-swapped word `lo, hi`: the
      reading agrees with the protocol's value only when both bytes are equal. */
  lemma HostLoadSwapsWireBytes(hi: byte, lo: byte)
    ensures Unsigned16(NativeWord(HostOrder, hi, lo)) == BigEndian16(lo, hi)
    ensures NativeWord(HostOrder, hi, lo) == Word(hi, lo) <==> hi == lo
  {
  }

  /** A native store followed by a native load gives back any pattern, in
      either byte order. */
  lemma NativeWordRoundTrip(order: ByteOrder, w: Word)
    ensures NativeWord(order, NativeBytes(order, w)[0], NativeBytes(order, w)[1]) == w
  {
  }

  /** A native load followed by a native store writes back the same two bytes. */
  lemma NativeBytesRoundTrip(order: ByteOrder, first: byte, second: byte)
    ensures NativeBytes(order, NativeWord(order, first, second)) == [first, second]
  {
  }
}
