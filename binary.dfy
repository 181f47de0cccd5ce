/** Byte strings and the little-endian unsigned 32-bit field of `struct`
    (format '<I'). */
module Binary {

  type Byte = b: int | 0 <= b < 0x100
  type Bytes = seq<Byte>

  const U32_LIMIT: nat := 0x1_0000_0000

  /** `struct.unpack('<I', b)`: four bytes, least significant first. */
  function ReadU32Le(b: Bytes): (n: nat)
    requires |b| == 4
    ensures n < U32_LIMIT
    ensures n % 0x100 == b[0]
  {
    b[0] as int + 0x100 * (b[1] as int) + 0x1_0000 * (b[2] as int) + 0x100_0000 * (b[3] as int)
  }

  /** `struct.pack('<I', n)`; Python raises for n >= 2^32, callers check that first. */
  function U32Le(n: nat): (b: Bytes)
    requires n < U32_LIMIT
    ensures |b| == 4
    ensures b[0] == n % 0x100
  {
    [n % 0x100, (n / 0x100) % 0x100, (n / 0x1_0000) % 0x100, n / 0x100_0000]
  }

  /** Decoding a packed field gives back the value packed. */
  lemma ReadPacked(n: nat)
    requires n < U32_LIMIT
    ensures ReadU32Le(U32Le(n)) == n
  {
    var q1 := n / 0x100;
    var q2 := q1 / 0x100;
    var q3 := q2 / 0x100;
    assert n == n % 0x100 + 0x100 * q1;
    assert q1 == q1 % 0x100 + 0x100 * q2;
    assert q2 == q2 % 0x100 + 0x100 * q3;
    assert n / 0x1_0000 == q2;
    assert n / 0x100_0000 == q3;
  }

  /** Packing a decoded field gives back the same four bytes. */
  lemma PackRead(b: Bytes)
    requires |b| == 4
    ensures U32Le(ReadU32Le(b)) == b
  {
    var n := ReadU32Le(b);
    var q1 := b[1] as int + 0x100 * (b[2] as int) + 0x1_0000 * (b[3] as int);
    var q2 := b[2] as int + 0x100 * (b[3] as int);
    SplitLowByte(n, q1, b[0]);
    SplitLowByte(q1, q2, b[1]);
    SplitLowByte(q2, b[3], b[2]);
    assert n / 0x1_0000 == q2 by { DivDiv(n, q1, q2); }
    assert n / 0x100_0000 == b[3] by { DivDiv(n, q1, q2); DivDiv3(n, q2, b[3]); }
  }

  lemma SplitLowByte(n: int, q: int, r: int)
    requires 0 <= r < 0x100 && n == r + 0x100 * q
    ensures n / 0x100 == q && n % 0x100 == r
  {
  }

  lemma DivDiv(n: nat, q1: nat, q2: nat)
    requires n / 0x100 == q1 && q1 / 0x100 == q2
    ensures n / 0x1_0000 == q2
  {
  }

  lemma DivDiv3(n: nat, q2: nat, q3: nat)
    requires n / 0x1_0000 == q2 && q2 / 0x100 == q3
    ensures n / 0x100_0000 == q3
  {
  }
}
