/** The arithmetic on 16-bit sequence numbers shared by sender and receiver:
    how the sender stamps a file offset and a payload length into a header
    (ftransfer.c:89-90), and how the receiver's data listener turns a wire
    sequence number back into a file offset, decodes the length and picks the
    cumulative acknowledgment (ftransfer.c:254-268). */
module SeqSpace {
  import opened Common

  // ---------------------------------------------------------------- sender side

  /** The wire sequence number of the segment starting at file offset `foffset`:
      `initseq + foffset % MAXSEQNUM`, stored into a `uint16_t`. */
  function WireSeq(cfg: Config, initseq: U16, foffset: nat): (s: U16)
    requires cfg.Valid()
    ensures (s - initseq) % TWO16 == foffset % cfg.maxSeqNum
  {
    ModAddLeft(initseq + foffset % cfg.maxSeqNum, -(initseq as int));
    Trunc16(initseq + foffset % cfg.maxSeqNum)
  }

  /** The payload length carried in the header word: the 3-bit control subfield
      sits below it, so the length is the word shifted right by three. */
  function PayloadLength(flag: U16): (n: U16)
    ensures n < 0x2000
    ensures n * 8 <= flag < n * 8 + 8
  {
    flag / 8
  }

  /** The header word of a new data segment: `bytesread << 3`, stored into a
      `uint16_t`. Its control bits are clear, and any length that fits the 13-bit
      subfield is decoded back unchanged. */
  function DataFlag(bytesread: nat): (flag: U16)
    ensures flag % 8 == 0
    ensures bytesread < 0x2000 ==> PayloadLength(flag) == bytesread
  {
    Trunc16(bytesread * 8)
  }

  // -------------------------------------------------------------- receiver side

  /** `deltaseq`: the distance between two 16-bit values. */
  function AbsDiff16(a: U16, b: U16): (d: U16)
    ensures a + d == b || b + d == a
  {
    if a < b then b - a else a - b
  }

  /** The wrap multiplier after seeing `seqNo`: one more exactly when `seqNo` lies
      more than OFTHRESH away from `lastseq`, whichever side it is on. */
  function NextMultiplier(cfg: Config, lastseq: U16, seqNo: U16, multiplier: int): (m: int)
    ensures m == multiplier || m == multiplier + 1
    ensures m == multiplier + 1 <==> (seqNo - lastseq > cfg.ofThresh || lastseq - seqNo > cfg.ofThresh)
  {
    if AbsDiff16(lastseq, seqNo) > cfg.ofThresh then multiplier + 1 else multiplier
  }

  /** The file offset of a segment: `(unsigned)seqNo + multiplier * MAXSEQNUM - initack`.
      The sum is evaluated as a 32-bit `unsigned` and then widened into an
      `off_t`, so it is the logical value whenever that lies in [0, 2^32), and
      that value modulo 2^32 otherwise (never negative). */
  function ResolveOffset(cfg: Config, seqNo: U16, multiplier: int, initack: U16): (offset: int)
    requires cfg.Valid()
    ensures 0 <= offset < TWO32
    ensures (offset - (seqNo + multiplier * cfg.maxSeqNum - initack)) % TWO32 == 0
    ensures 0 <= seqNo + multiplier * cfg.maxSeqNum - initack < TWO32 ==>
              offset == seqNo + multiplier * cfg.maxSeqNum - initack
  {
    Trunc32(seqNo + multiplier * cfg.maxSeqNum - initack)
  }

  /** `nextack` after a segment at `offset` carrying `datalen` bytes: the wire
      number `datalen` past the segment's own, modulo 2^16, when it starts
      exactly at the cursor, and the previous value otherwise. */
  function NextAck(offset: int, cursor: int, seqNo: U16, datalen: U16, nextack: U16): (a: U16)
    ensures offset == cursor ==> (a - seqNo) % TWO16 == datalen % TWO16
    ensures offset != cursor ==> a == nextack
  {
    ModAddLeft(seqNo + datalen, -(seqNo as int));
    if offset == cursor then Trunc16(seqNo + datalen) else nextack
  }

  // ------------------------------------------------ how the two sides fit together
  //
  // The lemmas from here on take one initial number `init` for both sides: it is
  // the sender's `initseq`, copied from its own sequence number (ftransfer.c:30),
  // and the receiver's `initack`, one more than the last number it saw from the
  // sender (ftransfer.c:151). The two agree only when the connection set-up,
  // which is not part of this model, leaves them so; the lemmas assume it.

  /** When the sender's and receiver's initial numbers agree and the receiver's
      multiplier counts the sender's completed cycles, the receiver resolves the
      sender's wire sequence number back to the exact file offset. The cycle
      count is `foffset / MAXSEQNUM` when the initial number leaves room for a
      whole cycle in 16 bits, and `(initseq + foffset) / 2^16` when a cycle is the
      whole 16-bit space. */
  lemma {:induction false} ResolveInvertsWireSeq(cfg: Config, init: U16, foffset: nat)
    requires cfg.Valid() && foffset < TWO32
    requires init + cfg.maxSeqNum <= TWO16 || cfg.maxSeqNum == TWO16
    ensures ResolveOffset(cfg, WireSeq(cfg, init, foffset), Cycles(cfg, init, foffset), init) == foffset
  {
    var m := cfg.maxSeqNum;
    if init + m <= TWO16 {
      assert foffset == (foffset / m) * m + foffset % m;
      assert WireSeq(cfg, init, foffset) == init + foffset % m;
    } else {
      assert WireSeq(cfg, init, foffset) == (init + foffset) % TWO16;
      assert init + foffset == ((init + foffset) / TWO16) * TWO16 + (init + foffset) % TWO16;
    }
  }

  /** How many sequence-space cycles the sender has completed at `foffset`. */
  function Cycles(cfg: Config, init: U16, foffset: nat): int
    requires cfg.Valid()
  {
    if init + cfg.maxSeqNum <= TWO16 then foffset / cfg.maxSeqNum else (init + foffset) / TWO16
  }

  /** With a 16-bit cycle, the acknowledgment chosen for an in-order segment is
      the wire sequence number the sender gives the next byte after it. */
  lemma AckNamesNextExpected(cfg: Config, init: U16, cursor: nat, datalen: U16, nextack: U16)
    requires cfg.Valid() && cfg.maxSeqNum == TWO16
    ensures NextAck(cursor, cursor, WireSeq(cfg, init, cursor), datalen, nextack)
            == WireSeq(cfg, init, cursor + datalen)
  {
    assert WireSeq(cfg, init, cursor) == (init + cursor % TWO16) % TWO16;
    assert WireSeq(cfg, init, cursor + datalen) == (init + (cursor + datalen) % TWO16) % TWO16;
    ModAddLeft(init + cursor % TWO16, datalen);
    ModAddLeft(cursor, init + datalen);
    ModAddLeft(cursor + datalen, init);
  }

  // ------------------------------------------------------ resolving a stream

  /** What the data listener remembers between segments to unwrap them. */
  datatype WrapState = WrapState(multiplier: int, lastseq: U16)

  /** One segment as ftransfer.c:254-258 handles it: the multiplier is updated,
      but `lastseq` keeps its initial value for the life of the listener. */
  function UnwrapAsWritten(cfg: Config, ws: WrapState, initack: U16, seqNo: U16): (r: (WrapState, int))
    requires cfg.Valid()
    ensures r.0.lastseq == ws.lastseq
    ensures r.0.multiplier == NextMultiplier(cfg, ws.lastseq, seqNo, ws.multiplier)
    ensures r.1 == ResolveOffset(cfg, seqNo, r.0.multiplier, initack)
  {
    var m := NextMultiplier(cfg, ws.lastseq, seqNo, ws.multiplier);
    (WrapState(m, ws.lastseq), ResolveOffset(cfg, seqNo, m, initack))
  }

  /** One segment with `lastseq` tracking the last wire value seen, as the name
      of the variable and the wraparound-detection design intend. */
  function Unwrap(cfg: Config, ws: WrapState, initack: U16, seqNo: U16): (r: (WrapState, int))
    requires cfg.Valid()
    ensures r.0.lastseq == seqNo
    ensures r.0.multiplier == NextMultiplier(cfg, ws.lastseq, seqNo, ws.multiplier)
    ensures r.1 == ResolveOffset(cfg, seqNo, r.0.multiplier, initack)
  {
    var m := NextMultiplier(cfg, ws.lastseq, seqNo, ws.multiplier);
    (WrapState(m, seqNo), ResolveOffset(cfg, seqNo, m, initack))
  }

  /** The offsets the listener resolves for a stream of wire numbers, as written. */
  function ResolveAllAsWritten(cfg: Config, ws: WrapState, initack: U16, seqs: seq<U16>): (offs: seq<int>)
    requires cfg.Valid()
    ensures |offs| == |seqs|
    decreases |seqs|
  {
    if seqs == [] then []
    else
      var r := UnwrapAsWritten(cfg, ws, initack, seqs[0]);
      [r.1] + ResolveAllAsWritten(cfg, r.0, initack, seqs[1..])
  }

  /** The offsets resolved for a stream of wire numbers when `lastseq` follows
      the stream. */
  function ResolveAll(cfg: Config, ws: WrapState, initack: U16, seqs: seq<U16>): (offs: seq<int>)
    requires cfg.Valid()
    ensures |offs| == |seqs|
    decreases |seqs|
  {
    if seqs == [] then []
    else
      var r := Unwrap(cfg, ws, initack, seqs[0]);
      [r.1] + ResolveAll(cfg, r.0, initack, seqs[1..])
  }

  /** The wire numbers the sender stamps on segments at the given offsets. */
  function WireSeqs(cfg: Config, init: U16, offs: seq<nat>): (seqs: seq<U16>)
    requires cfg.Valid()
    ensures |seqs| == |offs|
    ensures forall k :: 0 <= k < |offs| ==> seqs[k] == WireSeq(cfg, init, offs[k])
  {
    if offs == [] then [] else [WireSeq(cfg, init, offs[0])] + WireSeqs(cfg, init, offs[1..])
  }

  /** A step from offset `p` to offset `o` that the wraparound heuristic can
      follow: forward, no larger than OFTHRESH, and short of a whole cycle less
      OFTHRESH (so a crossing of the 16-bit boundary shows as a jump above it). */
  predicate FollowableStep(cfg: Config, p: nat, o: nat)
  {
    p <= o && o - p <= cfg.ofThresh && o - p + cfg.ofThresh < TWO16
  }

  /** Each offset of `offs` is a followable step from the one before it (the
      first from `prev`), and all lie below 2^32. */
  predicate FollowableStream(cfg: Config, prev: nat, offs: seq<nat>)
  {
    (forall k :: 0 <= k < |offs| ==> offs[k] < TWO32) &&
    (|offs| > 0 ==> FollowableStep(cfg, prev, offs[0])) &&
    (forall k :: 0 < k < |offs| ==> FollowableStep(cfg, offs[k - 1], offs[k]))
  }

  /** The listener's state after it has seen the segment at offset `p`, in a
      16-bit cycle. */
  function StateAt(init: U16, p: nat): WrapState
  {
    WrapState((init + p) / TWO16, (init + p) % TWO16)
  }

  /** One followable step keeps the tracking resolver in step with the sender. */
  lemma UnwrapFollowsStep(cfg: Config, init: U16, p: nat, o: nat)
    requires cfg.Valid() && cfg.maxSeqNum == TWO16
    requires FollowableStep(cfg, p, o) && o < TWO32
    ensures Unwrap(cfg, StateAt(init, p), init, WireSeq(cfg, init, o)) == (StateAt(init, o), o)
  {
    var a, b := init + p, init + o;
    assert WireSeq(cfg, init, o) == b % TWO16;
    assert a == (a / TWO16) * TWO16 + a % TWO16;
    assert b == (b / TWO16) * TWO16 + b % TWO16;
    if b / TWO16 == a / TWO16 {
      assert b % TWO16 == a % TWO16 + (o - p);
    } else {
      assert b / TWO16 == a / TWO16 + 1;
      assert b % TWO16 + TWO16 == a % TWO16 + (o - p);
    }
  }

  /** With `lastseq` following the stream and a 16-bit cycle, every segment of
      a followable stream of offsets, wraparounds included, is resolved to the
      offset the sender gave it. */
  lemma {:induction false} ResolveAllRecoversOffsets(cfg: Config, init: U16, prev: nat, offs: seq<nat>)
    requires cfg.Valid() && cfg.maxSeqNum == TWO16
    requires FollowableStream(cfg, prev, offs)
    ensures ResolveAll(cfg, StateAt(init, prev), init, WireSeqs(cfg, init, offs)) == offs
    decreases |offs|
  {
    if offs != [] {
      var seqs := WireSeqs(cfg, init, offs);
      UnwrapFollowsStep(cfg, init, prev, offs[0]);
      assert seqs[1..] == WireSeqs(cfg, init, offs[1..]);
      assert FollowableStream(cfg, offs[0], offs[1..]) by {
        forall k | 0 < k < |offs[1..]|
          ensures FollowableStep(cfg, offs[1..][k - 1], offs[1..][k])
        {
          assert offs[1..][k - 1] == offs[k] && offs[1..][k] == offs[k + 1];
        }
        if |offs| > 1 {
          assert FollowableStep(cfg, offs[0], offs[1]);
        }
      }
      ResolveAllRecoversOffsets(cfg, init, offs[0], offs[1..]);
    }
  }

  /** The listener starts with multiplier 0 and `lastseq == initack`, which is
      the state after offset 0. */
  lemma InitialStateIsOffsetZero(init: U16)
    ensures StateAt(init, 0) == WrapState(0, init)
  {
  }

  /** A wraparound seen in a three-segment stream from initial number 65000:
      offsets 500, 1000 and 1500 travel as 65500, 464 and 964. With `lastseq`
      frozen at 65000 the third segment is also taken for a wrap and resolved
      one whole cycle too far; with `lastseq` following the stream it is not. */
  lemma FrozenLastSeqMisresolves(cfg: Config)
    requires cfg.Valid() && cfg.maxSeqNum == TWO16
    requires 500 <= cfg.ofThresh < 32768
    ensures WireSeqs(cfg, 65000, [500, 1000, 1500]) == [65500, 464, 964]
    ensures ResolveAllAsWritten(cfg, WrapState(0, 65000), 65000, [65500, 464, 964]) == [500, 1000, 67036]
    ensures ResolveAll(cfg, WrapState(0, 65000), 65000, [65500, 464, 964]) == [500, 1000, 1500]
  {
    var o: seq<nat> := [500, 1000, 1500];
    assert o[1..] == [1000, 1500] && o[1..][1..] == [1500] && o[1..][1..][1..] == [];
    var s: seq<U16> := [65500, 464, 964];
    assert WireSeq(cfg, 65000, 500) == 65500 && WireSeq(cfg, 65000, 1000) == 464 &&
           WireSeq(cfg, 65000, 1500) == 964;
    assert WireSeqs(cfg, 65000, o) == s;
    assert s[1..] == [464, 964] && s[1..][1..] == [964] && s[1..][1..][1..] == [];
    var w0, w1, w2 := WrapState(0, 65000), WrapState(1, 65000), WrapState(2, 65000);
    assert UnwrapAsWritten(cfg, w0, 65000, 65500) == (w0, 500);
    assert UnwrapAsWritten(cfg, w0, 65000, 464) == (w1, 1000);
    assert UnwrapAsWritten(cfg, w1, 65000, 964) == (w2, 67036);
    assert ResolveAllAsWritten(cfg, w2, 65000, []) == [];
    assert ResolveAllAsWritten(cfg, w1, 65000, [964]) == [67036];
    assert ResolveAllAsWritten(cfg, w0, 65000, [464, 964]) == [1000, 67036];
    var t0, t1, t2 := WrapState(0, 65500), WrapState(1, 464), WrapState(1, 964);
    assert Unwrap(cfg, w0, 65000, 65500) == (t0, 500);
    assert Unwrap(cfg, t0, 65000, 464) == (t1, 1000);
    assert Unwrap(cfg, t1, 65000, 964) == (t2, 1500);
    assert ResolveAll(cfg, t2, 65000, []) == [];
    assert ResolveAll(cfg, t1, 65000, [964]) == [1500];
    assert ResolveAll(cfg, t0, 65000, [464, 964]) == [1000, 1500];
  }

  /** No wraparound is needed for the frozen `lastseq` to go wrong: from initial
      number 0, segments at offsets 0, 512, 1024 and 1536 travel as those same
      numbers. With `lastseq` frozen at 0, every segment more than OFTHRESH
      past 0 bumps the multiplier again, so the third and fourth segments land
      one and two whole cycles too far; with `lastseq` following the stream
      each step is 512 and nothing is bumped. */
  lemma FrozenLastSeqMisresolvesWithoutWrap(cfg: Config)
    requires cfg.Valid() && cfg.maxSeqNum == TWO16
    requires 512 <= cfg.ofThresh < 1024
    ensures WireSeqs(cfg, 0, [0, 512, 1024, 1536]) == [0, 512, 1024, 1536]
    ensures ResolveAllAsWritten(cfg, WrapState(0, 0), 0, [0, 512, 1024, 1536]) == [0, 512, 66560, 132608]
    ensures ResolveAll(cfg, WrapState(0, 0), 0, [0, 512, 1024, 1536]) == [0, 512, 1024, 1536]
  {
    var o: seq<nat> := [0, 512, 1024, 1536];
    assert o[1..] == [512, 1024, 1536] && o[1..][1..] == [1024, 1536] && o[1..][1..][1..] == [1536];
    assert o[1..][1..][1..][1..] == [];
    var s: seq<U16> := [0, 512, 1024, 1536];
    assert WireSeq(cfg, 0, 0) == 0 && WireSeq(cfg, 0, 512) == 512 &&
           WireSeq(cfg, 0, 1024) == 1024 && WireSeq(cfg, 0, 1536) == 1536;
    assert WireSeqs(cfg, 0, o) == s;
    assert s[1..] == [512, 1024, 1536] && s[1..][1..] == [1024, 1536] && s[1..][1..][1..] == [1536];
    assert s[1..][1..][1..][1..] == [];
    var w0, w1, w2 := WrapState(0, 0), WrapState(1, 0), WrapState(2, 0);
    assert UnwrapAsWritten(cfg, w0, 0, 0) == (w0, 0);
    assert UnwrapAsWritten(cfg, w0, 0, 512) == (w0, 512);
    assert UnwrapAsWritten(cfg, w0, 0, 1024) == (w1, 66560);
    assert UnwrapAsWritten(cfg, w1, 0, 1536) == (w2, 132608);
    assert ResolveAllAsWritten(cfg, w2, 0, []) == [];
    assert ResolveAllAsWritten(cfg, w1, 0, [1536]) == [132608];
    assert ResolveAllAsWritten(cfg, w0, 0, [1024, 1536]) == [66560, 132608];
    assert ResolveAllAsWritten(cfg, w0, 0, [512, 1024, 1536]) == [512, 66560, 132608];
    var t1, t2, t3 := WrapState(0, 512), WrapState(0, 1024), WrapState(0, 1536);
    assert Unwrap(cfg, w0, 0, 0) == (w0, 0);
    assert Unwrap(cfg, w0, 0, 512) == (t1, 512);
    assert Unwrap(cfg, t1, 0, 1024) == (t2, 1024);
    assert Unwrap(cfg, t2, 0, 1536) == (t3, 1536);
    assert ResolveAll(cfg, t3, 0, []) == [];
    assert ResolveAll(cfg, t2, 0, [1536]) == [1536];
    assert ResolveAll(cfg, t1, 0, [1024, 1536]) == [1024, 1536];
    assert ResolveAll(cfg, w0, 0, [512, 1024, 1536]) == [512, 1024, 1536];
  }
}
