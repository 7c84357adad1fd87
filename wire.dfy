/**
 * Java's primitive integer widths and the big-endian `java.nio.ByteBuffer`
 * layout every message uses.  A datagram is a sequence of octets; the Java
 * program sees each octet as a signed `byte`.
 */
module Wire {

  /** One octet of a datagram: the eight bits of a Java `byte`. */
  type Byte = b: int | 0 <= b < 0x100

  /** A Java `byte` value. */
  type Int8 = x: int | -0x80 <= x < 0x80

  /** A Java `int` value. */
  type Int32 = x: int | -0x8000_0000 <= x < 0x8000_0000

  /** The exceptions a decoder can raise. */
  datatype Failure =
    | BufferUnderflow    // java.nio.BufferUnderflowException: read past the end
    | IndexOutOfBounds   // ArrayIndexOutOfBoundsException: no such enum ordinal, or an empty datagram
    | ClassCast          // ClassCastException: an `equals` applied to a message of another kind
    | IllegalArgument    // IllegalArgumentException thrown by FloorRequest.compareTo

  /** A value, or the exception that computing it raised. */
  datatype Result<+T> = Ok(value: T) | Err(failure: Failure) {
    predicate IsFailure() { Err? }

    function PropagateFailure<U>(): Result<U>
      requires Err?
    {
      Err(failure)
    }

    function Extract(): T
      requires Ok?
    {
      value
    }
  }

  datatype Option<+T> = None | Some(value: T)

  /** Java's `int` arithmetic: the exact value reduced into the 32-bit range. */
  function Wrap32(x: int): (r: Int32)
    ensures (r - x) % 0x1_0000_0000 == 0
    ensures -0x8000_0000 <= x < 0x8000_0000 ==> r == x
  {
    var u := x % 0x1_0000_0000;
    if u < 0x8000_0000 then u else u - 0x1_0000_0000
  }

  /** The octet `(byte) x` writes: the low eight bits of `x`. */
  function LowByte(x: int): (r: Byte)
    ensures (r - x) % 0x100 == 0
  {
    x % 0x100
  }

  /** The Java `byte` an octet denotes (two's complement). */
  function Signed(b: Byte): (r: Int8)
    ensures r % 0x100 == b
    ensures r >= 0 <==> b < 0x80
  {
    if b < 0x80 then b else b - 0x100
  }

  /** Writing the low byte of `x` and reading it back as a signed byte gives `x` exactly when `x` fits in a Java byte. */
  lemma SignedLowByte(x: int)
    ensures Signed(LowByte(x)) == x <==> -0x80 <= x < 0x80
  {
    if -0x80 <= x < 0x80 {
      if x < 0 {
        assert LowByte(x) == x + 0x100;
      }
    }
  }

  /** `ByteBuffer.putInt`: four octets, most significant first. */
  function PutInt(x: Int32): (r: seq<Byte>)
    ensures |r| == 4
  {
    var u := x % 0x1_0000_0000;
    var r1 := u / 0x100;
    var r2 := r1 / 0x100;
    [r2 / 0x100, r2 % 0x100, r1 % 0x100, u % 0x100]
  }

  /** The big-endian 32-bit value of four octets, as a signed Java `int`. */
  function IntOf(b0: Byte, b1: Byte, b2: Byte, b3: Byte): Int32
  {
    var u: int := b0 * 0x100_0000 + b1 * 0x1_0000 + b2 * 0x100 + b3;
    if u < 0x8000_0000 then u else u - 0x1_0000_0000
  }

  /** `ByteBuffer.get()` at position `pos`: the signed byte there, or an underflow. */
  function GetAt(data: seq<Byte>, pos: nat): (r: Result<Int8>)
    ensures r.Ok? <==> pos < |data|
    ensures r.Ok? ==> r.value % 0x100 == data[pos]
    ensures r.Err? ==> r.failure == BufferUnderflow
  {
    if pos < |data| then Ok(Signed(data[pos])) else Err(BufferUnderflow)
  }

  /** `ByteBuffer.getInt()` at position `pos`: four octets read big-endian, or an underflow. */
  function GetIntAt(data: seq<Byte>, pos: nat): (r: Result<Int32>)
    ensures r.Ok? <==> pos + 4 <= |data|
    ensures r.Err? ==> r.failure == BufferUnderflow
  {
    if pos + 4 <= |data| then Ok(IntOf(data[pos], data[pos + 1], data[pos + 2], data[pos + 3]))
    else Err(BufferUnderflow)
  }

  /** Splitting an unsigned 32-bit value into octets and joining them again is the identity. */
  lemma OctetsJoin(u: int)
    requires 0 <= u < 0x1_0000_0000
    ensures var r1 := u / 0x100; var r2 := r1 / 0x100;
            (r2 / 0x100) * 0x100_0000 + (r2 % 0x100) * 0x1_0000 + (r1 % 0x100) * 0x100 + u % 0x100 == u
  {
    var r1 := u / 0x100;
    var r2 := r1 / 0x100;
    assert u == r1 * 0x100 + u % 0x100;
    assert r1 == r2 * 0x100 + r1 % 0x100;
    assert r2 == (r2 / 0x100) * 0x100 + r2 % 0x100;
  }

  /** Joining the four octets of `putInt(x)` gives back `x`. */
  lemma IntOfPutInt(x: Int32)
    ensures IntOf(PutInt(x)[0], PutInt(x)[1], PutInt(x)[2], PutInt(x)[3]) == x
  {
    var u := x % 0x1_0000_0000;
    assert u == if x >= 0 then x else x + 0x1_0000_0000;
    OctetsJoin(u);
  }

  /** `getInt` reads back what `putInt` wrote, at any position. */
  lemma GetPutInt(prefix: seq<Byte>, x: Int32, suffix: seq<Byte>)
    ensures GetIntAt(prefix + PutInt(x) + suffix, |prefix|) == Ok(x)
  {
    var data, b, n := prefix + PutInt(x) + suffix, PutInt(x), |prefix|;
    assert data[n] == b[0] && data[n + 1] == b[1] && data[n + 2] == b[2] && data[n + 3] == b[3];
    IntOfPutInt(x);
  }

  /** `get` reads back the signed value of the octet that `put` wrote. */
  lemma GetPutByte(prefix: seq<Byte>, b: Byte, suffix: seq<Byte>)
    ensures GetAt(prefix + [b] + suffix, |prefix|) == Ok(Signed(b))
  {
    assert (prefix + [b] + suffix)[|prefix|] == b;
  }

  /** The octets of the big-endian encoding of small non-negative values: three zero octets then the value. */
  lemma PutSmallInt(x: Int32)
    requires 0 <= x < 0x100
    ensures PutInt(x) == [0, 0, 0, x]
  {
  }
}
