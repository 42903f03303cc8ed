/** The sender engine, `ftransfer_sender` (ftransfer.c:9-142), one pass of its
    main loop at a time: the window limit and packet budget (lines 73-74), the
    admission of new segments (lines 77-103), the retransmission scan (lines
    106-135) and the end test (line 137). File reads, the clock and
    `send_packet` are parameters: the file is `fsize` bytes that do not change,
    a read at the file position returns what is left of the file up to the
    requested count and moves the position on, every datagram goes out whole,
    and one clock reading `now` serves a whole pass. */
module Sender {
  import opened Common
  import opened SeqSpace
  import opened WndPool

  /** One datagram as the sender sends it: the header fields set in `self`
      (sequence number and flag word) and the stretch of the file, `count`
      bytes from position `from`, read into its payload. */
  datatype Datagram = Datagram(seqNo: U16, flag: U16, from: nat, count: nat)

  /** The sender's file-control variables that live across passes: `foffset`,
      the position of `filefd` (set to 0 at ftransfer.c:66), `bytesread`,
      `bytesend` and `nodata`. */
  datatype SendVars = SendVars(foffset: nat, filepos: nat, bytesread: nat, bytesend: nat, nodata: bool)

  // -------------------------------------------------------------- window limit

  /** `limit`: the smaller of the congestion window and the advertised window. */
  function Limit(cwnd: U16, rwnd: U16): (limit: U16)
    ensures limit <= cwnd && limit <= rwnd
    ensures limit == cwnd || limit == rwnd
  {
    if cwnd < rwnd then cwnd else rwnd
  }

  /** `availpack` as ftransfer.c:74 computes it: the signed difference
      `limit - bytesend` divided by PACKSIZE with C's truncating division, then
      stored into a `uint16_t`. While nothing beyond the limit is in flight it
      is the number of whole datagrams that still fit under the limit. */
  function PacketBudgetAsWritten(cfg: Config, limit: U16, bytesend: nat): (n: U16)
    requires cfg.Valid()
    ensures bytesend <= limit ==> n * cfg.packSize <= limit - bytesend < n * cfg.packSize + cfg.packSize
  {
    Trunc16(CDiv(limit - bytesend, cfg.packSize))
  }

  /** Once `bytesend` is `k` whole datagrams past the limit, the quotient is
      `-k` and the budget wraps to `65536 - k`: one datagram too many already
      in flight lets 65535 more be sent. */
  lemma BudgetWrapsPastLimit(cfg: Config, limit: U16, k: nat)
    requires cfg.Valid() && 1 <= k < TWO16
    ensures PacketBudgetAsWritten(cfg, limit, limit + k * cfg.packSize) == TWO16 - k
  {
    var p := cfg.packSize;
    ExactQuotient(k, p);
    assert CDiv(limit - (limit + k * p), p) == -(k as int);
    assert -(k as int) == -1 * TWO16 + (TWO16 - k);
  }

  /** The budget the window design intends: the whole datagrams that fit
      between what is in flight and the limit, and none once the limit is
      reached or passed. */
  function PacketBudget(cfg: Config, limit: U16, bytesend: nat): (n: nat)
    requires cfg.Valid()
    ensures n < TWO16
    ensures bytesend + n * cfg.packSize <= limit || n == 0
    ensures bytesend + (n + 1) * cfg.packSize > limit
  {
    if bytesend >= limit then 0
    else
      DivBounds(limit - bytesend, cfg.packSize);
      (limit - bytesend) / cfg.packSize
  }

  /** Both budgets agree while the limit is not exceeded. */
  lemma BudgetsAgreeWithinLimit(cfg: Config, limit: U16, bytesend: nat)
    requires cfg.Valid() && bytesend <= limit
    ensures PacketBudgetAsWritten(cfg, limit, bytesend) == PacketBudget(cfg, limit, bytesend)
  {
    QuotientUnique(limit - bytesend, cfg.packSize,
                     PacketBudgetAsWritten(cfg, limit, bytesend), PacketBudget(cfg, limit, bytesend));
  }


  // ------------------------------------------------------------ new segments

  /** What `read` returns when asked for `want` bytes at file position `pos`
      of a file of `fsize` bytes: what is left of the file, up to `want`. */
  function ReadAt(fsize: nat, pos: nat, want: nat): (n: nat)
    ensures n <= want
    ensures pos >= fsize ==> n == 0
    ensures pos < fsize ==> pos + n <= fsize && (n == want || pos + n == fsize)
  {
    if pos >= fsize then 0
    else if fsize - pos < want then fsize - pos
    else want
  }

  /** What `read(filefd, buf, DATASIZE)` returns at file position `pos`. */
  function ReadCount(cfg: Config, fsize: nat, pos: nat): (n: nat)
    requires cfg.Valid()
    ensures n <= cfg.dataSize
    ensures pos >= fsize ==> n == 0
    ensures pos < fsize ==> 0 < n && pos + n <= fsize && (n == cfg.dataSize || pos + n == fsize)
  {
    ReadAt(fsize, pos, cfg.dataSize)
  }

  /** The variables after one round of the admission loop: the chunk read at
      the file position moves the position and `foffset` on by its length, and
      one more datagram is in flight. */
  function Advanced(cfg: Config, fsize: nat, st: SendVars): SendVars
    requires cfg.Valid()
  {
    var n := ReadCount(cfg, fsize, st.filepos);
    SendVars(st.foffset + n, st.filepos + n, n, st.bytesend + cfg.packSize, st.nodata)
  }

  /** The outcome of the admission loop (ftransfer.c:77-103) with a budget of
      `budget` datagrams: the new file-control variables, the entries recorded
      in the window and the datagrams sent, in order. Each step stops with
      `nodata` set when the last read returned exactly `fsize` bytes; otherwise
      it reads the next chunk at the file position, stamps it with the wire
      sequence number of `foffset` and the length-carrying flag, records it at
      `foffset` and sends one datagram. */
  function Admit(cfg: Config, fsize: nat, initseq: U16, now: TimeVal, budget: nat, st: SendVars)
    : (r: (SendVars, seq<WndItem>, seq<Datagram>))
    requires cfg.Valid()
    ensures |r.1| == |r.2| <= budget
    ensures r.0.bytesend >= st.bytesend
    ensures |r.1| < budget ==> r.0.nodata
    decreases budget
  {
    if budget == 0 then (st, [], [])
    else if st.bytesread == fsize then (st.(nodata := true), [], [])
    else
      var n := ReadCount(cfg, fsize, st.filepos);
      var seqNo := WireSeq(cfg, initseq, st.foffset);
      var rest := Admit(cfg, fsize, initseq, now, budget - 1, Advanced(cfg, fsize, st));
      (rest.0, [WndItem(st.foffset, seqNo, n, 0, now)] + rest.1,
       [Datagram(seqNo, DataFlag(n), st.filepos, n)] + rest.2)
  }

  /** One step of `Admit` when data remains to be read, spelled out. */
  lemma AdmitUnfold(cfg: Config, fsize: nat, initseq: U16, now: TimeVal, budget: nat, st: SendVars)
    requires cfg.Valid() && budget > 0 && st.bytesread != fsize
    ensures var n := ReadCount(cfg, fsize, st.filepos);
            var seqNo := WireSeq(cfg, initseq, st.foffset);
            var rest := Admit(cfg, fsize, initseq, now, budget - 1, Advanced(cfg, fsize, st));
            Admit(cfg, fsize, initseq, now, budget, st) ==
              (rest.0, [WndItem(st.foffset, seqNo, n, 0, now)] + rest.1,
               [Datagram(seqNo, DataFlag(n), st.filepos, n)] + rest.2)
  {
  }

  /** Entry `e`, recorded at time `now`, carries the wire sequence number of
      its offset and no acknowledgments, and `d` is the datagram sent for it:
      that number, the flag word of its length and as many bytes. */
  predicate Stamped(cfg: Config, initseq: U16, now: TimeVal, e: WndItem, d: Datagram)
    requires cfg.Valid()
  {
    e.seqNo == WireSeq(cfg, initseq, e.offset) && e.nacked == 0 && e.tv == now &&
    d.seqNo == e.seqNo && d.flag == DataFlag(e.datalen) && d.count == e.datalen
  }

  /** Each entry of `es` is stamped and `ds` holds the datagram sent for it. */
  predicate AllStamped(cfg: Config, initseq: U16, now: TimeVal, es: seq<WndItem>, ds: seq<Datagram>)
    requires cfg.Valid()
  {
    |es| == |ds| && forall k :: 0 <= k < |es| ==> Stamped(cfg, initseq, now, es[k], ds[k])
  }

  /** Every entry one admission loop records carries the wire sequence number
      of its own offset, no acknowledgments and the time of the pass, and the
      datagram sent for it carries that sequence number, its length in the
      flag word and that many bytes. */
  lemma {:induction false} AdmitStampsEntries(cfg: Config, fsize: nat, initseq: U16, now: TimeVal,
                                              budget: nat, st: SendVars)
    requires cfg.Valid()
    ensures var r := Admit(cfg, fsize, initseq, now, budget, st);
            AllStamped(cfg, initseq, now, r.1, r.2)
    decreases budget
  {
    if budget > 0 && st.bytesread != fsize {
      var n := ReadCount(cfg, fsize, st.filepos);
      var next := Advanced(cfg, fsize, st);
      AdmitStampsEntries(cfg, fsize, initseq, now, budget - 1, next);
      var rest := Admit(cfg, fsize, initseq, now, budget - 1, next);
      var e := WndItem(st.foffset, WireSeq(cfg, initseq, st.foffset), n, 0, now);
      var d := Datagram(e.seqNo, DataFlag(n), st.filepos, n);
      var r := Admit(cfg, fsize, initseq, now, budget, st);
      AdmitUnfold(cfg, fsize, initseq, now, budget, st);
      assert Stamped(cfg, initseq, now, e, d);
      forall k | 1 <= k < |r.1|
        ensures Stamped(cfg, initseq, now, r.1[k], r.2[k])
      {
        assert r.1[k] == rest.1[k - 1] && r.2[k] == rest.2[k - 1];
      }
    }
  }

  /** Each datagram carries the bytes read at the file position, which stays
      as far from the offset recorded for the entry as the position was from
      `foffset` when the loop began. While the two agree, every datagram
      carries the bytes of the offset its sequence number names. */
  lemma {:induction false} AdmitReadsAtPosition(cfg: Config, fsize: nat, initseq: U16, now: TimeVal,
                                                budget: nat, st: SendVars)
    requires cfg.Valid()
    ensures var r := Admit(cfg, fsize, initseq, now, budget, st);
            forall k :: 0 <= k < |r.2| ==> r.2[k].from == r.1[k].offset + st.filepos - st.foffset
    decreases budget
  {
    if budget > 0 && st.bytesread != fsize {
      var next := Advanced(cfg, fsize, st);
      AdmitReadsAtPosition(cfg, fsize, initseq, now, budget - 1, next);
      var rest := Admit(cfg, fsize, initseq, now, budget - 1, next);
      var r := Admit(cfg, fsize, initseq, now, budget, st);
      AdmitUnfold(cfg, fsize, initseq, now, budget, st);
      assert next.filepos - next.foffset == st.filepos - st.foffset;
      forall k | 1 <= k < |r.2|
        ensures r.2[k].from == r.1[k].offset + st.filepos - st.foffset
      {
        assert r.1[k] == rest.1[k - 1] && r.2[k] == rest.2[k - 1];
      }
    }
  }

  /** The window entries `es` cover the file from `from` to `to` back to back
      (the window-pool counterpart of `Receiver.BufferCovers`). */
  predicate WindowCovers(from: int, es: seq<WndItem>, to: int)
    decreases |es|
  {
    if es == [] then from == to
    else es[0].offset == from && WindowCovers(from + es[0].datalen, es[1..], to)
  }

  /** The segments one admission loop records follow each other without gap or
      overlap from the old `foffset` to the new one; the file position moves on
      by the same amount, and never passes the end of the file if it started
      within it. */
  lemma {:induction false} AdmitIsContiguous(cfg: Config, fsize: nat, initseq: U16, now: TimeVal,
                                             budget: nat, st: SendVars)
    requires cfg.Valid()
    ensures var r := Admit(cfg, fsize, initseq, now, budget, st);
            WindowCovers(st.foffset, r.1, r.0.foffset) &&
            r.0.foffset - st.foffset == r.0.filepos - st.filepos &&
            st.filepos <= r.0.filepos && (st.filepos <= fsize ==> r.0.filepos <= fsize)
    decreases budget
  {
    if budget > 0 && st.bytesread != fsize {
      var n := ReadCount(cfg, fsize, st.filepos);
      var next := Advanced(cfg, fsize, st);
      AdmitIsContiguous(cfg, fsize, initseq, now, budget - 1, next);
      var rest := Admit(cfg, fsize, initseq, now, budget - 1, next);
      var r := Admit(cfg, fsize, initseq, now, budget, st);
      assert r.0 == rest.0 && r.1[1..] == rest.1;
      assert r.1[0].offset == st.foffset && r.1[0].datalen == n;
    }
  }

  /** The end-of-data test compares the count of the LAST read with the whole
      file size, so `nodata` is raised only by a read that returned the whole
      file at once: a file longer than DATASIZE never raises it. */
  lemma {:induction false} NoDataOnlyForOneChunkFiles(cfg: Config, fsize: nat, initseq: U16, now: TimeVal,
                                                      budget: nat, st: SendVars)
    requires cfg.Valid()
    ensures Admit(cfg, fsize, initseq, now, budget, st).0.nodata ==>
              st.nodata || st.bytesread == fsize || fsize <= cfg.dataSize
    decreases budget
  {
    if budget > 0 && st.bytesread != fsize {
      NoDataOnlyForOneChunkFiles(cfg, fsize, initseq, now, budget - 1, Advanced(cfg, fsize, st));
    }
  }

  /** Once the file position is at or past the end of a non-empty file and the
      last read did not return the whole file, every further datagram of the
      budget carries an empty segment, recorded again at the same `foffset`. */
  lemma {:induction false} AdmitPastEndRepeatsEmpty(cfg: Config, fsize: nat, initseq: U16, now: TimeVal,
                                                    budget: nat, st: SendVars)
    requires cfg.Valid() && fsize > 0 && st.filepos >= fsize && st.bytesread != fsize
    ensures var r := Admit(cfg, fsize, initseq, now, budget, st);
            |r.1| == budget &&
            forall k :: 0 <= k < |r.1| ==> r.1[k].offset == st.foffset && r.1[k].datalen == 0
    decreases budget
  {
    if budget > 0 {
      var next := Advanced(cfg, fsize, st);
      assert next.foffset == st.foffset && next.filepos == st.filepos && next.bytesread == 0;
      AdmitPastEndRepeatsEmpty(cfg, fsize, initseq, now, budget - 1, next);
    }
  }

  /** Every datagram the admission loop sends adds PACKSIZE to `bytesend`. */
  lemma {:induction false} AdmitChargesPerDatagram(cfg: Config, fsize: nat, initseq: U16, now: TimeVal,
                                                   budget: nat, st: SendVars)
    requires cfg.Valid()
    ensures var r := Admit(cfg, fsize, initseq, now, budget, st);
            r.0.bytesend == st.bytesend + |r.2| * cfg.packSize
    decreases budget
  {
    if budget > 0 && st.bytesread != fsize {
      var next := Advanced(cfg, fsize, st);
      AdmitChargesPerDatagram(cfg, fsize, initseq, now, budget - 1, next);
      var rest := Admit(cfg, fsize, initseq, now, budget - 1, next);
      MulSucc(|rest.2|, cfg.packSize);
    }
  }

  /** Admission under the window budget never takes the bytes sent past the
      smaller of the two windows: every datagram it sends fits under the limit. */
  lemma BudgetKeepsWithinLimit(cfg: Config, fsize: nat, initseq: U16, now: TimeVal, limit: U16, st: SendVars)
    requires cfg.Valid() && st.bytesend <= limit
    ensures Admit(cfg, fsize, initseq, now, PacketBudget(cfg, limit, st.bytesend), st).0.bytesend <= limit
  {
    var n := PacketBudget(cfg, limit, st.bytesend);
    var r := Admit(cfg, fsize, initseq, now, n, st);
    AdmitChargesPerDatagram(cfg, fsize, initseq, now, n, st);
    MulMonotone(|r.2|, n, cfg.packSize);
  }

  /** The admission loop's outcome seen from part-way through: `done` is what
      the loop has recorded and `sentSoFar` what it has sent before reaching
      state `st` with `budget` datagrams left. */
  predicate Resumes(cfg: Config, fsize: nat, initseq: U16, now: TimeVal,
                    whole: (SendVars, seq<WndItem>, seq<Datagram>),
                    done: seq<WndItem>, sentSoFar: seq<Datagram>, budget: nat, st: SendVars)
    requires cfg.Valid()
  {
    var r := Admit(cfg, fsize, initseq, now, budget, st);
    whole.0 == r.0 && whole.1 == done + r.1 && whole.2 == sentSoFar + r.2
  }

  /** One step of the admission loop when data remains to be read moves one
      entry and one datagram from what is still to come to what is done. */
  lemma AdmitAdvance(cfg: Config, fsize: nat, initseq: U16, now: TimeVal,
                     whole: (SendVars, seq<WndItem>, seq<Datagram>),
                     done: seq<WndItem>, sentSoFar: seq<Datagram>, budget: nat, st: SendVars,
                     e: WndItem, d: Datagram, next: SendVars,
                     done': seq<WndItem>, sentSoFar': seq<Datagram>, budget': nat)
    requires cfg.Valid() && budget > 0 && st.bytesread != fsize
    requires Resumes(cfg, fsize, initseq, now, whole, done, sentSoFar, budget, st)
    requires var n := ReadCount(cfg, fsize, st.filepos);
             var seqNo := WireSeq(cfg, initseq, st.foffset);
             e == WndItem(st.foffset, seqNo, n, 0, now) && d == Datagram(seqNo, DataFlag(n), st.filepos, n) &&
             next == Advanced(cfg, fsize, st)
    requires done' == done + [e] && sentSoFar' == sentSoFar + [d] && budget' == budget - 1
    ensures Resumes(cfg, fsize, initseq, now, whole, done', sentSoFar', budget', next)
  {
    var rest := Admit(cfg, fsize, initseq, now, budget - 1, next);
    assert done + ([e] + rest.1) == (done + [e]) + rest.1;
    assert sentSoFar + ([d] + rest.2) == (sentSoFar + [d]) + rest.2;
  }

  /** When the last read returned the whole file, the admission loop stops
      with `nodata` set and nothing more recorded or sent. */
  lemma AdmitStops(cfg: Config, fsize: nat, initseq: U16, now: TimeVal,
                   whole: (SendVars, seq<WndItem>, seq<Datagram>),
                   done: seq<WndItem>, sentSoFar: seq<Datagram>, budget: nat, st: SendVars)
    requires cfg.Valid() && budget > 0 && st.bytesread == fsize
    requires Resumes(cfg, fsize, initseq, now, whole, done, sentSoFar, budget, st)
    ensures whole == (st.(nodata := true), done, sentSoFar)
  {
    assert done + [] == done && sentSoFar + [] == sentSoFar;
  }

  /** Once the budget is spent, what is done is the whole outcome. */
  lemma AdmitSpent(cfg: Config, fsize: nat, initseq: U16, now: TimeVal,
                   whole: (SendVars, seq<WndItem>, seq<Datagram>),
                   done: seq<WndItem>, sentSoFar: seq<Datagram>, st: SendVars)
    requires cfg.Valid()
    requires Resumes(cfg, fsize, initseq, now, whole, done, sentSoFar, 0, st)
    ensures whole == (st, done, sentSoFar)
  {
    assert done + [] == done && sentSoFar + [] == sentSoFar;
  }

  /** One round of the admission loop once data remains (ftransfer.c:82-102):
      read the next chunk at the file position, stamp the header with the
      wire number of `foffset`, record the entry at `foffset` and account for
      the datagram sent. */
  method SendOne(cfg: Config, pool: WndItemPool, fsize: nat, initseq: U16, now: TimeVal, st: SendVars)
    returns (st': SendVars, ghost e: WndItem, d: Datagram)
    requires cfg.Valid() && pool.Valid()
    modifies pool, pool.list
    ensures pool.Valid() && (pool.list == old(pool.list) || fresh(pool.list))
    ensures var n := ReadCount(cfg, fsize, st.filepos);
            var seqNo := WireSeq(cfg, initseq, st.foffset);
            e == WndItem(st.foffset, seqNo, n, 0, now) && d == Datagram(seqNo, DataFlag(n), st.filepos, n) &&
            st' == SendVars(st.foffset + n, st.filepos + n, n, st.bytesend + cfg.packSize, st.nodata)
    ensures pool.Contents() == old(pool.Contents()) + [e]
  {
    var n := ReadCount(cfg, fsize, st.filepos);
    var seqNo := WireSeq(cfg, initseq, st.foffset);
    d := Datagram(seqNo, DataFlag(n), st.filepos, n);
    pool.Add(st.foffset, seqNo, n, now);
    e := WndItem(st.foffset, seqNo, n, 0, now);
    st' := SendVars(st.foffset + n, st.filepos + n, n, st.bytesend + cfg.packSize, st.nodata);
  }

  /** The admission loop, ftransfer.c:77-103, recording into the window pool. */
  method SendNewData(cfg: Config, pool: WndItemPool, fsize: nat, initseq: U16, availpack: U16,
                     now: TimeVal, st: SendVars)
    returns (st': SendVars, sent: seq<Datagram>)
    requires cfg.Valid() && pool.Valid()
    modifies pool, pool.list
    ensures pool.Valid() && (pool.list == old(pool.list) || fresh(pool.list))
    ensures var r := Admit(cfg, fsize, initseq, now, availpack, st);
            st' == r.0 && sent == r.2 && pool.Contents() == old(pool.Contents()) + r.1
  {
    ghost var whole := Admit(cfg, fsize, initseq, now, availpack, st);
    ghost var before := pool.Contents();
    ghost var added: seq<WndItem> := [];
    st', sent := st, [];
    var i := 0;
    ghost var left: nat := availpack;
    assert added + whole.1 == whole.1 && sent + whole.2 == whole.2;
    while i < availpack
      invariant i <= availpack && left == availpack - i
      invariant pool.Valid() && (pool.list == old(pool.list) || fresh(pool.list))
      invariant pool.Contents() == before + added
      invariant Resumes(cfg, fsize, initseq, now, whole, added, sent, left, st')
    {
      if st'.bytesread == fsize {
        AdmitStops(cfg, fsize, initseq, now, whole, added, sent, left, st');
        st' := st'.(nodata := true);
        return;
      }
      var st0 := st';
      ghost var e;
      var d;
      st', e, d := SendOne(cfg, pool, fsize, initseq, now, st0);
      assert st' == Advanced(cfg, fsize, st0);
      ghost var added0, sent0, left0 := added, sent, left;
      added := added + [e];
      sent := sent + [d];
      left := left - 1;
      AdmitAdvance(cfg, fsize, initseq, now, whole, added0, sent0, left0, st0, e, d, st', added, sent, left);
      i := i + 1;
    }
    AdmitSpent(cfg, fsize, initseq, now, whole, added, sent, st');
  }

  // ---------------------------------------------------------- retransmission

  /** The instant `t` in microseconds. */
  function Micros(t: TimeVal): int
  {
    t.sec * 1000000 + t.usec
  }

  /** `d_sec * 1000000 + d_usec` (ftransfer.c:109-111): the time from `since`
      to `now` in microseconds, whether or not the `usec` fields borrow. */
  function ElapsedMicros(now: TimeVal, since: TimeVal): (d: int)
    ensures d == Micros(now) - Micros(since)
  {
    (now.sec - since.sec) * 1000000 + (now.usec - since.usec)
  }

  /** The retransmission test of ftransfer.c:113: more than TIMEOUT
      milliseconds lie between the entry's last transmission and `now`. */
  function TimedOut(cfg: Config, now: TimeVal, sentAt: TimeVal): (due: bool)
    ensures due <==> Micros(sentAt) + cfg.timeout * 1000 < Micros(now)
    ensures due ==> sentAt != now
  {
    ElapsedMicros(now, sentAt) > cfg.timeout * 1000
  }

  /** An entry after the scan (ftransfer.c:126): re-stamped with `now` exactly
      when it had timed out. Only its send time can change, and afterwards it
      is not due at `now`. */
  function Retimed(cfg: Config, e: WndItem, now: TimeVal): (e': WndItem)
    ensures e'.offset == e.offset && e'.seqNo == e.seqNo && e'.datalen == e.datalen && e'.nacked == e.nacked
    ensures e' != e <==> TimedOut(cfg, now, e.tv)
    ensures !TimedOut(cfg, now, e'.tv)
  {
    if TimedOut(cfg, now, e.tv) then e.(tv := now) else e
  }

  /** The flag word ftransfer.c:124 sets on a retransmission: the bare length,
      without the shift by three that line 90 applies, so the receiver's
      decoding yields an eighth of it. */
  function RetransmitFlagAsWritten(datalen: U16): (flag: U16)
    ensures PayloadLength(flag) == datalen / 8
  {
    datalen
  }

  /** The receiver decodes a retransmitted segment's length as an eighth of the
      true length (ftransfer.c:264), while the flag of a first transmission
      decodes to the true length. A 512-byte segment, for one, comes back as 64. */
  lemma RetransmitFlagMisdecoded(datalen: U16)
    requires 0 < datalen < 0x2000
    ensures PayloadLength(RetransmitFlagAsWritten(datalen)) == datalen / 8 < datalen
    ensures PayloadLength(DataFlag(datalen)) == datalen
  {
  }

  /** The datagram the scan sends again for entry `e` (ftransfer.c:115-124),
      with the flag word corrected: its original sequence number, the header
      word of a first transmission where line 124 writes the bare length (see
      `RetransmitFlagAsWritten`), and the bytes re-read at its offset, at most
      its recorded length and all of it when the entry lies within the file. */
  function Resend(fsize: nat, e: WndItem): (d: Datagram)
    ensures d.seqNo == e.seqNo && d.from == e.offset && d.count <= e.datalen
    ensures e.datalen < 0x2000 ==> PayloadLength(d.flag) == e.datalen
    ensures e.offset + e.datalen <= fsize ==> d.count == e.datalen
  {
    Datagram(e.seqNo, DataFlag(e.datalen), e.offset, ReadAt(fsize, e.offset, e.datalen))
  }

  /** The datagrams the scan over `s` sends, in entry order, with the flag
      word corrected as in `Resend`: one `Resend` for each entry that timed
      out. */
  function Resent(cfg: Config, fsize: nat, s: seq<WndItem>, now: TimeVal): (ds: seq<Datagram>)
    ensures |ds| <= |s|
  {
    if s == [] then []
    else
      var e := s[|s| - 1];
      Resent(cfg, fsize, s[..|s| - 1], now) + (if TimedOut(cfg, now, e.tv) then [Resend(fsize, e)] else [])
  }

  /** How many entries of `s` are due at `now`. */
  function DueCount(cfg: Config, s: seq<WndItem>, now: TimeVal): (n: nat)
    ensures n <= |s|
  {
    if s == [] then 0
    else DueCount(cfg, s[..|s| - 1], now) + (if TimedOut(cfg, now, s[|s| - 1].tv) then 1 else 0)
  }

  /** The scan resends every entry that is due, exactly once and in entry
      order: it sends as many datagrams as there are due entries, and the one
      for a due entry `s[k]` comes right after those for the due entries
      before it. */
  lemma {:induction false} ResentCoversDue(cfg: Config, fsize: nat, s: seq<WndItem>, now: TimeVal)
    ensures |Resent(cfg, fsize, s, now)| == DueCount(cfg, s, now)
    ensures forall k :: 0 <= k < |s| && TimedOut(cfg, now, s[k].tv) ==>
              DueCount(cfg, s[..k], now) < |Resent(cfg, fsize, s, now)| &&
              Resent(cfg, fsize, s, now)[DueCount(cfg, s[..k], now)] == Resend(fsize, s[k])
    decreases |s|
  {
    if s != [] {
      var p := s[..|s| - 1];
      var e := s[|s| - 1];
      ResentCoversDue(cfg, fsize, p, now);
      var ds := Resent(cfg, fsize, s, now);
      var dp := Resent(cfg, fsize, p, now);
      assert ds == dp + (if TimedOut(cfg, now, e.tv) then [Resend(fsize, e)] else []);
      assert DueCount(cfg, s, now) == DueCount(cfg, p, now) + (if TimedOut(cfg, now, e.tv) then 1 else 0);
      forall k | 0 <= k < |s| && TimedOut(cfg, now, s[k].tv)
        ensures DueCount(cfg, s[..k], now) < |ds| && ds[DueCount(cfg, s[..k], now)] == Resend(fsize, s[k])
      {
        if k < |p| {
          assert s[..k] == p[..k] && s[k] == p[k];
          assert ds[DueCount(cfg, p[..k], now)] == dp[DueCount(cfg, p[..k], now)];
        } else {
          assert s[..k] == p && s[k] == e;
        }
      }
    } else {
      assert Resent(cfg, fsize, s, now) == [];
    }
  }

  /** Whether an entry is due for retransmission depends only on its send
      time: after a scan at `now`, no entry is due at `now` any more, so a
      second scan at the same time sends nothing. */
  lemma {:induction false} ScanIsIdempotent(cfg: Config, fsize: nat, s: seq<WndItem>, now: TimeVal)
    ensures Resent(cfg, fsize, seq(|s|, k requires 0 <= k < |s| => Retimed(cfg, s[k], now)), now) == []
  {
    var t := seq(|s|, k requires 0 <= k < |s| => Retimed(cfg, s[k], now));
    ResentOfFresh(cfg, fsize, t, now);
  }

  /** The scan sends nothing for entries that are not due. */
  lemma {:induction false} ResentOfFresh(cfg: Config, fsize: nat, s: seq<WndItem>, now: TimeVal)
    requires forall k :: 0 <= k < |s| ==> !TimedOut(cfg, now, s[k].tv)
    ensures Resent(cfg, fsize, s, now) == []
    decreases |s|
  {
    if s != [] {
      ResentOfFresh(cfg, fsize, s[..|s| - 1], now);
    }
  }

  /** `d` is the retransmission of entry `e`: `e` had timed out, and `d`
      carries its sequence number, bytes from its offset and a flag word that
      decodes to its length. */
  predicate ResendOf(cfg: Config, now: TimeVal, d: Datagram, e: WndItem)
  {
    TimedOut(cfg, now, e.tv) && d.seqNo == e.seqNo && d.from == e.offset && PayloadLength(d.flag) == e.datalen
  }

  /** Every datagram the scan sends is the retransmission of a timed-out
      entry, and the receiver decodes from it the entry's true length. */
  lemma {:induction false} ResentDecodesLengths(cfg: Config, fsize: nat, s: seq<WndItem>, now: TimeVal)
    requires forall k :: 0 <= k < |s| ==> s[k].datalen < 0x2000
    ensures forall j :: 0 <= j < |Resent(cfg, fsize, s, now)| ==>
              exists k :: 0 <= k < |s| && ResendOf(cfg, now, Resent(cfg, fsize, s, now)[j], s[k])
    decreases |s|
  {
    if s != [] {
      var p := s[..|s| - 1];
      var e := s[|s| - 1];
      ResentDecodesLengths(cfg, fsize, p, now);
      var ds := Resent(cfg, fsize, s, now);
      var dp := Resent(cfg, fsize, p, now);
      forall j | 0 <= j < |ds|
        ensures exists k :: 0 <= k < |s| && ResendOf(cfg, now, ds[j], s[k])
      {
        if j < |dp| {
          assert ds[j] == dp[j];
          var k :| 0 <= k < |p| && ResendOf(cfg, now, dp[j], p[k]);
          assert s[k] == p[k];
        } else {
          assert ds[j] == Resend(fsize, e);
          assert ResendOf(cfg, now, ds[j], s[|s| - 1]);
        }
      }
      assert ds == Resent(cfg, fsize, s, now);
    } else {
      assert Resent(cfg, fsize, s, now) == [];
    }
  }

  /** The file-control variables after entry `e` is re-sent as
      ftransfer.c:114-127 writes it: the position before the re-read is
      saved, the entry is re-read at its offset, and `foffset` takes the saved
      position while the file position stays at the end of the re-read bytes. */
  function Reread(fsize: nat, e: WndItem, v: SendVars): (v': SendVars)
    ensures v'.foffset == v.filepos && v'.filepos == e.offset + v'.bytesread
    ensures v'.bytesread <= e.datalen && v'.bytesend == v.bytesend && v'.nodata == v.nodata
  {
    var n := ReadAt(fsize, e.offset, e.datalen);
    v.(foffset := v.filepos, filepos := e.offset + n, bytesread := n)
  }

  /** The file-control variables after the scan over `s`: each due entry, in
      entry order, is re-read. Only `foffset`, the position and `bytesread`
      change, and nothing changes when no entry is due. */
  function ScanVars(cfg: Config, fsize: nat, s: seq<WndItem>, now: TimeVal, st: SendVars): (r: SendVars)
    ensures r.bytesend == st.bytesend && r.nodata == st.nodata
    ensures DueCount(cfg, s, now) == 0 ==> r == st
  {
    if s == [] then st
    else
      var v := ScanVars(cfg, fsize, s[..|s| - 1], now, st);
      var e := s[|s| - 1];
      if TimedOut(cfg, now, e.tv) then Reread(fsize, e, v) else v
  }

  /** As written, the scan leaves `foffset` and the file position apart. With
      512-byte entries at offsets 0 and 512 both due and both variables at
      1024, the scan ends with `foffset` at 512 and the position at 1024, so
      the next admission records a second entry at offset 512 and sends it,
      under the sequence number of 512, with the bytes from 1024. */
  lemma ScanAsWrittenMisplacesNextSegment(cfg: Config, fsize: nat, initseq: U16, now: TimeVal,
                                          sentAt: TimeVal, bytesend: nat)
    requires cfg.Valid() && cfg.dataSize == 512 && fsize >= 2048 && TimedOut(cfg, now, sentAt)
    ensures var s := [WndItem(0, WireSeq(cfg, initseq, 0), 512, 0, sentAt),
                      WndItem(512, WireSeq(cfg, initseq, 512), 512, 0, sentAt)];
            var v := ScanVars(cfg, fsize, s, now, SendVars(1024, 1024, 512, bytesend, false));
            var r := Admit(cfg, fsize, initseq, now, 1, v);
            v.foffset == 512 && v.filepos == 1024 &&
            r.1 == [WndItem(512, WireSeq(cfg, initseq, 512), 512, 0, now)] &&
            r.2 == [Datagram(WireSeq(cfg, initseq, 512), DataFlag(512), 1024, 512)]
  {
    var s := [WndItem(0, WireSeq(cfg, initseq, 0), 512, 0, sentAt),
              WndItem(512, WireSeq(cfg, initseq, 512), 512, 0, sentAt)];
    var v0 := SendVars(1024, 1024, 512, bytesend, false);
    var v1 := SendVars(1024, 512, 512, bytesend, false);
    var v2 := SendVars(512, 1024, 512, bytesend, false);
    assert s[..1] == [s[0]] && s[..1][..0] == [];
    assert ScanVars(cfg, fsize, s[..1], now, v0) == v1;
    assert ScanVars(cfg, fsize, s, now, v0) == v2;
    assert ReadCount(cfg, fsize, 1024) == 512;
    AdmitUnfold(cfg, fsize, initseq, now, 1, v2);
  }

  /** The re-send as the saved position evidently intends: the file is sought
      back to the saved position after the re-read, and `foffset` is left alone. */
  function RereadRestoring(fsize: nat, e: WndItem, v: SendVars): (v': SendVars)
    ensures v'.foffset == v.foffset && v'.filepos == v.filepos
    ensures v'.bytesread <= e.datalen && v'.bytesend == v.bytesend && v'.nodata == v.nodata
  {
    v.(bytesread := ReadAt(fsize, e.offset, e.datalen))
  }

  /** The scan with `RereadRestoring`: `foffset` and the position end where
      they were. */
  function ScanVarsRestoring(cfg: Config, fsize: nat, s: seq<WndItem>, now: TimeVal, st: SendVars)
    : (r: SendVars)
    ensures r.foffset == st.foffset && r.filepos == st.filepos
    ensures r.bytesend == st.bytesend && r.nodata == st.nodata
  {
    if s == [] then st
    else
      var v := ScanVarsRestoring(cfg, fsize, s[..|s| - 1], now, st);
      var e := s[|s| - 1];
      if TimedOut(cfg, now, e.tv) then RereadRestoring(fsize, e, v) else v
  }

  /** With the position restored after each re-read, a scan starting where
      `foffset` and the position agree is followed by an admission that sends
      every segment with the bytes of the offset its entry records, and as
      many of them as the entry's length. */
  lemma RestoredScanSendsOwnBytes(cfg: Config, fsize: nat, initseq: U16, now: TimeVal,
                                  budget: nat, s: seq<WndItem>, st: SendVars)
    requires cfg.Valid() && st.foffset == st.filepos
    ensures var r := Admit(cfg, fsize, initseq, now, budget, ScanVarsRestoring(cfg, fsize, s, now, st));
            forall k :: 0 <= k < |r.2| ==> r.2[k].from == r.1[k].offset && r.2[k].count == r.1[k].datalen
  {
    var v := ScanVarsRestoring(cfg, fsize, s, now, st);
    var r := Admit(cfg, fsize, initseq, now, budget, v);
    AdmitReadsAtPosition(cfg, fsize, initseq, now, budget, v);
    AdmitStampsEntries(cfg, fsize, initseq, now, budget, v);
    forall k | 0 <= k < |r.2|
      ensures r.2[k].from == r.1[k].offset && r.2[k].count == r.1[k].datalen
    {
      assert Stamped(cfg, initseq, now, r.1[k], r.2[k]);
    }
  }

  /** Extending the scanned prefix by entry `i` appends what that entry sends. */
  lemma ScanStep(cfg: Config, fsize: nat, s: seq<WndItem>, i: nat, now: TimeVal, st: SendVars)
    requires i < |s|
    ensures Resent(cfg, fsize, s[..i + 1], now) ==
            Resent(cfg, fsize, s[..i], now) + (if TimedOut(cfg, now, s[i].tv) then [Resend(fsize, s[i])] else [])
    ensures ScanVars(cfg, fsize, s[..i + 1], now, st) ==
            (if TimedOut(cfg, now, s[i].tv) then Reread(fsize, s[i], ScanVars(cfg, fsize, s[..i], now, st))
             else ScanVars(cfg, fsize, s[..i], now, st))
  {
    assert s[..i + 1][..i] == s[..i];
  }

  /** The body of the scan at entry `i` (ftransfer.c:113-127): a due entry is
      re-read at its offset and sent again as `Resend` says, its timer restarts, and `foffset`
      takes the position saved before the re-read, while the position stays
      after the re-read bytes. An entry not due is left alone. */
  method ResendIfDue(cfg: Config, pool: WndItemPool, fsize: nat, now: TimeVal, i: nat, st: SendVars)
    returns (st': SendVars, sent: seq<Datagram>)
    requires cfg.Valid() && pool.Valid() && i < pool.nitems
    modifies pool.list
    ensures pool.Valid()
    ensures pool.Contents() == old(pool.Contents())[i := Retimed(cfg, old(pool.Contents())[i], now)]
    ensures var e := old(pool.Contents())[i];
            if TimedOut(cfg, now, e.tv) then st' == Reread(fsize, e, st) && sent == [Resend(fsize, e)]
            else st' == st && sent == []
  {
    st', sent := st, [];
    var e := pool.list[i];
    if TimedOut(cfg, now, e.tv) {
      var tempoffset := st'.filepos;
      var n := ReadAt(fsize, e.offset, e.datalen);
      st' := st'.(filepos := e.offset + n, bytesread := n);
      sent := [Datagram(e.seqNo, DataFlag(e.datalen), e.offset, n)];
      pool.UpdateTimer(i, now);
      st' := st'.(foffset := tempoffset);
    }
    assert pool.Contents() == old(pool.Contents())[i := Retimed(cfg, e, now)];
  }

  /** The retransmission scan, ftransfer.c:106-135: every entry that has
      timed out is re-read at its offset and sent again with its original
      sequence number and the corrected flag word of `Resend`, and its send
      time is updated; nothing else in the pool
      changes, and afterwards no entry is due. The file-control variables
      move as `ScanVars` says. */
  method RetransmitPass(cfg: Config, pool: WndItemPool, fsize: nat, now: TimeVal, st: SendVars)
    returns (st': SendVars, sent: seq<Datagram>)
    requires cfg.Valid() && pool.Valid()
    modifies pool.list
    ensures pool.Valid() && |pool.Contents()| == |old(pool.Contents())|
    ensures forall k :: 0 <= k < |pool.Contents()| ==>
              pool.Contents()[k] == Retimed(cfg, old(pool.Contents())[k], now)
    ensures forall k :: 0 <= k < |pool.Contents()| ==> !TimedOut(cfg, now, pool.Contents()[k].tv)
    ensures sent == Resent(cfg, fsize, old(pool.Contents()), now)
    ensures st' == ScanVars(cfg, fsize, old(pool.Contents()), now, st)
  {
    ghost var s0 := pool.Contents();
    st', sent := st, [];
    var i := 0;
    while i < pool.nitems
      invariant i <= pool.nitems == |s0|
      invariant pool.Valid()
      invariant forall k :: 0 <= k < i ==> pool.Contents()[k] == Retimed(cfg, s0[k], now)
      invariant forall k :: i <= k < pool.nitems ==> pool.Contents()[k] == s0[k]
      invariant sent == Resent(cfg, fsize, s0[..i], now)
      invariant st' == ScanVars(cfg, fsize, s0[..i], now, st)
    {
      ScanStep(cfg, fsize, s0, i, now, st);
      var more;
      st', more := ResendIfDue(cfg, pool, fsize, now, i, st');
      sent := sent + more;
      i := i + 1;
    }
    assert s0[..i] == s0;
  }

  // --------------------------------------------------------------- one pass

  /** One pass of the main loop (ftransfer.c:73-137): admission under the
      window budget as line 74 computes it, then the retransmission scan over
      the old and new entries, then the end test of line 137. `cwnd` keeps
      the INITCWND it is given at ftransfer.c:12 and `bytesacked` the 0 of
      ftransfer.c:24, since nothing updates either, so the limit is the smaller
      of INITCWND and `rwnd`, and the pass ends only when `nodata` is set for
      an empty file. */
  method SenderPass(cfg: Config, pool: WndItemPool, fsize: nat, initseq: U16,
                    rwnd: U16, now: TimeVal, st: SendVars)
    returns (st': SendVars, sent: seq<Datagram>, end: bool)
    requires cfg.Valid() && pool.Valid()
    modifies pool, pool.list
    ensures pool.Valid()
    ensures var r := Admit(cfg, fsize, initseq, now,
                           PacketBudgetAsWritten(cfg, Limit(cfg.initCwnd, rwnd), st.bytesend), st);
            var s := old(pool.Contents()) + r.1;
            |pool.Contents()| == |s| &&
            (forall k :: 0 <= k < |s| ==> pool.Contents()[k] == Retimed(cfg, s[k], now)) &&
            sent == r.2 + Resent(cfg, fsize, s, now) &&
            st' == ScanVars(cfg, fsize, s, now, r.0)
    ensures end <==> st'.nodata && fsize == 0
    ensures st.bytesend <= Limit(cfg.initCwnd, rwnd) ==> st'.bytesend <= Limit(cfg.initCwnd, rwnd)
  {
    var cwnd: U16, bytesacked := cfg.initCwnd, 0;
    var limit := Limit(cwnd, rwnd);
    var availpack := PacketBudgetAsWritten(cfg, limit, st.bytesend);
    if st.bytesend <= limit {
      BudgetsAgreeWithinLimit(cfg, limit, st.bytesend);
      BudgetKeepsWithinLimit(cfg, fsize, initseq, now, limit, st);
    }
    var mid, sentNew := SendNewData(cfg, pool, fsize, initseq, availpack, now, st);
    var sentOld;
    st', sentOld := RetransmitPass(cfg, pool, fsize, now, mid);
    sent := sentNew + sentOld;
    end := st'.nodata && bytesacked == fsize;
  }
}
