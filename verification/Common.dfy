/** Failure-compatible values and bytes shared by the components of the node model. */
module Common {

  datatype Option<+T> = None | Some(value: T)

  datatype Result<+T, +E> = Ok(value: T) | Err(error: E)

  /** One byte of a packet or an audio file. */
  type byte = x: int | 0 <= x < 256

  const TWO_32: int := 0x1_0000_0000
  const VECTOR_DIM: nat := 100
  const MAX_INT64: int := 0x7FFF_FFFF_FFFF_FFFF

  /** Big-endian encoding of the 32-bit truncation of n. */
  function PutUint32(n: nat): (bytes: seq<byte>)
    ensures |bytes| == 4
  {
    [n / 0x100_0000 % 256, n / 0x1_0000 % 256, n / 0x100 % 256, n % 256]
  }

  function Uint32(bytes: seq<byte>): (n: nat)
    requires |bytes| == 4
    ensures n < TWO_32
  {
    bytes[0] as int * 0x100_0000 + bytes[1] as int * 0x1_0000 + bytes[2] as int * 0x100 + bytes[3] as int
  }

  /** Reading back a written length gives the length modulo 2^32, so exactly the lengths below 2^32 survive. */
  lemma Uint32OfPut(n: nat)
    ensures Uint32(PutUint32(n)) == n % TWO_32
  {
    var q1, q2, q3 := n / 0x100, n / 0x1_0000, n / 0x100_0000;
    assert q2 == q1 / 256 && q3 == q2 / 256;
    assert n == q1 * 256 + n % 256;
    assert q1 == q2 * 256 + q1 % 256;
    assert q2 == q3 * 256 + q2 % 256;
    assert q3 == q3 / 256 * 256 + q3 % 256;
    assert n == q3 / 256 * TWO_32 + Uint32(PutUint32(n));
  }

  /** Four bytes are the encoding of the number they stand for. */
  lemma PutOfUint32(bytes: seq<byte>)
    requires |bytes| == 4
    ensures PutUint32(Uint32(bytes)) == bytes && Uint32(bytes) < TWO_32
  {
    var q3: int := bytes[0];
    var q2, q1 := q3 * 256 + bytes[1] as int, (q3 * 256 + bytes[1] as int) * 256 + bytes[2] as int;
    var x := Uint32(bytes);
    assert x == q1 * 256 + bytes[3] as int;
    Quotients(x);
    assert x / 0x100 == q1 && x / 0x1_0000 == q2 && x / 0x100_0000 == q3;
  }

  lemma Quotients(x: nat)
    ensures x / 0x1_0000 == x / 0x100 / 0x100 && x / 0x100_0000 == x / 0x1_0000 / 0x100
  {
  }

  /** The most significant byte comes first. */
  lemma BigEndian()
    ensures PutUint32(0x0102_0304) == [1, 2, 3, 4]
  {
  }

  /** A 64-bit integer after overflow. */
  function Wrap64(x: int): (r: int)
    ensures -MAX_INT64 - 1 <= r <= MAX_INT64
    ensures -MAX_INT64 - 1 <= x <= MAX_INT64 ==> r == x
    ensures (r - x) % (TWO_32 * TWO_32) == 0
  {
    (x + MAX_INT64 + 1) % (TWO_32 * TWO_32) - MAX_INT64 - 1
  }

  lemma {:induction false} SubsetSize<T>(a: set<T>, b: set<T>)
    requires a <= b
    ensures |a| <= |b|
  {
    if a != {} {
      var x :| x in a;
      SubsetSize(a - {x}, b - {x});
    }
  }
}
