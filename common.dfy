/** Widths, timestamps and the build-time constants shared by both transfer
    directions. The constants live in a header that is not part of this model,
    so they are carried as a `Config` value whose `Valid()` states the bounds the
    code relies on. */
module Common {

  const TWO16: int := 0x1_0000
  const TWO32: int := 0x1_0000_0000

  /** A C `uint16_t`. */
  type U16 = x: int | 0 <= x < TWO16

  /** Storing an integer into a `uint16_t`: keep the value modulo 2^16. */
  function Trunc16(x: int): (r: U16)
    ensures (r - x) % TWO16 == 0
    ensures 0 <= x < TWO16 ==> r == x
  {
    x % TWO16
  }

  /** Reducing one summand modulo 2^16 first does not change the sum's residue. */
  lemma ModAddLeft(a: int, b: int)
    ensures (a % TWO16 + b) % TWO16 == (a + b) % TWO16
  {
    var q := a / TWO16;
    assert a == q * TWO16 + a % TWO16;
    assert a + b == (a % TWO16 + b) + q * TWO16;
  }

  /** Storing an integer into a 32-bit `unsigned`: keep the value modulo 2^32. */
  function Trunc32(x: int): (r: int)
    ensures 0 <= r < TWO32
    ensures (r - x) % TWO32 == 0
    ensures 0 <= x < TWO32 ==> r == x
  {
    x % TWO32
  }

  /** C integer division, which truncates toward zero (Dafny's `/` is Euclidean). */
  function CDiv(a: int, b: int): (q: int)
    requires b > 0
    ensures a >= 0 ==> 0 <= q * b <= a < q * b + b && 0 <= q <= a
    ensures a < 0 ==> q * b - b < a <= q * b <= 0
  {
    if a >= 0 then
      DivBounds(a, b);
      a / b
    else
      DivBounds(-a, b);
      var k := (-a) / b;
      assert (-k) * b == -(k * b);
      -k
  }

  /** Dividing a multiple of `b` by `b` gives back the factor. */
  lemma ExactQuotient(k: nat, b: int)
    requires b > 0
    ensures (k * b) / b == k
  {
    DivBounds(k * b, b);
    QuotientUnique(k * b, b, k, (k * b) / b);
  }

  /** Euclidean division of a non-negative number brackets it between two
      consecutive multiples of the divisor. */
  lemma DivBounds(a: nat, b: int)
    requires b > 0
    ensures 0 <= (a / b) * b <= a < (a / b) * b + b
    ensures 0 <= a / b <= a
  {
    assert a == (a / b) * b + a % b;
    MulMonotone(1, b, a / b);
  }

  /** Multiplying by a non-negative number keeps the order. */
  lemma {:induction false} MulMonotone(x: int, y: int, p: int)
    requires x <= y && p >= 0
    ensures x * p <= y * p
    decreases y - x
  {
    if x < y {
      MulMonotone(x, y - 1, p);
      MulSucc(y - 1, p);
    }
  }

  /** One more factor of `m` adds one `p`. */
  lemma MulSucc(m: int, p: int)
    ensures (m + 1) * p == m * p + p
  {
  }

  /** Only one multiple of `p` lies within `p` below `x`. */
  lemma QuotientUnique(x: int, p: int, a: int, b: int)
    requires p > 0
    requires a * p <= x < a * p + p && b * p <= x < b * p + p
    ensures a == b
  {
    if a < b {
      MulMonotone(a + 1, b, p);
    } else if b < a {
      MulMonotone(b + 1, a, p);
    }
  }

  /** A `struct timeval`. */
  datatype TimeVal = TimeVal(sec: int, usec: int)

  /** The constants of the transfer engine. */
  datatype Config = Config(
    maxSeqNum: nat,   // MAXSEQNUM: size of one sequence-space cycle
    ofThresh: nat,    // OFTHRESH: wraparound-detection threshold
    dataSize: nat,    // DATASIZE: largest payload of one segment
    headerSize: nat,  // HEADERSIZE: bytes of header in front of the payload
    packSize: nat,    // PACKSIZE: size of every datagram
    timeout: nat,     // TIMEOUT: retransmission timeout, in milliseconds
    initCwnd: nat,    // INITCWND: initial congestion window
    ackFlag: nat      // ACK: the acknowledgment bit of the control subfield
  )
  {
    /** The bounds the code assumes of its constants: a sequence cycle fits the
        16-bit wire field, one payload fits a cycle (so the reassembly pool has
        room for at least one segment) and the 13-bit length subfield, a header
        plus a payload fits one datagram, and the ACK indicator sits in the
        3-bit control subfield below the length. */
    predicate Valid()
    {
      0 < maxSeqNum <= TWO16 &&
      0 < dataSize <= maxSeqNum && dataSize < 0x2000 &&
      headerSize + dataSize <= packSize && 0 < packSize &&
      initCwnd < TWO16 &&
      ackFlag < 8
    }
  }
}
