/** The receiving side of the transfer (ftransfer.c:144-206 and 224-280): the
    data listener, which unwraps each segment's sequence number to a file
    offset, buffers the segment and chooses the acknowledgment, and the drain
    loop, which writes buffered segments to the file in offset order. */
module Receiver {
  import opened Common
  import opened SeqSpace
  import opened BufPool

  datatype Option<T> = None | Some(value: T)

  /** The header fields of the acknowledgment the listener sends back. */
  datatype AckPacket = AckPacket(ack: U16, flag: nat)

  // ------------------------------------------------------------- drain loop

  /** The buffered entries `es` cover the file from `from` to `to` back to back
      (the reassembly-pool counterpart of `Sender.WindowCovers`). */
  predicate BufferCovers(from: int, es: seq<BufItem>, to: int)
    decreases |es|
  {
    if es == [] then from == to
    else es[0].offset == from && BufferCovers(from + es[0].datalen, es[1..], to)
  }

  /** One pass of the `for` loop of ftransfer.c:190-202 from index `i`, with the
      file cursor at `cursor`: the active entries left, the new cursor and the
      entries written, in the order they were written. An entry that starts at
      the cursor is written and removed, and the scan goes on at the next index,
      which after the removal holds the entry that was two places further on. */
  function DrainFrom(s: seq<BufItem>, i: nat, cursor: int): (r: (seq<BufItem>, int, seq<BufItem>))
    ensures |r.0| <= |s|
    decreases |s| + 1 - i
  {
    if i >= |s| then (s, cursor, [])
    else if s[i].offset != cursor then DrainFrom(s, i + 1, cursor)
    else
      var rest := DrainFrom(RemoveAt(s, i), i + 1, cursor + s[i].datalen);
      (rest.0, rest.1, [s[i]] + rest.2)
  }

  /** The segments a pass writes follow each other in the file without gap or
      overlap, starting at the old cursor and ending at the new one. */
  lemma {:induction false} DrainWritesInOrder(s: seq<BufItem>, i: nat, cursor: int)
    ensures var r := DrainFrom(s, i, cursor);
            BufferCovers(cursor, r.2, r.1) && cursor <= r.1
    decreases |s| + 1 - i
  {
    if i < |s| {
      if s[i].offset != cursor {
        DrainWritesInOrder(s, i + 1, cursor);
      } else {
        var rest := DrainFrom(RemoveAt(s, i), i + 1, cursor + s[i].datalen);
        DrainWritesInOrder(RemoveAt(s, i), i + 1, cursor + s[i].datalen);
        assert ([s[i]] + rest.2)[1..] == rest.2;
      }
    }
  }

  /** A pass loses no segment and invents none: every active entry is either
      still buffered or written, and the buffer still holds no two entries with
      the same offset. */
  lemma {:induction false} DrainConserves(s: seq<BufItem>, i: nat, cursor: int)
    ensures var r := DrainFrom(s, i, cursor);
            multiset(s) == multiset(r.0) + multiset(r.2) &&
            (DistinctOffsets(s) ==> DistinctOffsets(r.0))
    decreases |s| + 1 - i
  {
    if i < |s| {
      if s[i].offset != cursor {
        DrainConserves(s, i + 1, cursor);
        assert DrainFrom(s, i, cursor) == DrainFrom(s, i + 1, cursor);
      } else {
        var t := RemoveAt(s, i);
        var rest := DrainFrom(t, i + 1, cursor + s[i].datalen);
        DrainConserves(t, i + 1, cursor + s[i].datalen);
        assert DrainFrom(s, i, cursor) == (rest.0, rest.1, [s[i]] + rest.2);
        assert multiset([s[i]] + rest.2) == multiset{s[i]} + multiset(rest.2);
        assert multiset(s) == multiset(t) + multiset{s[i]};
        assert multiset(t) == multiset(rest.0) + multiset(rest.2);
        MovedOne(multiset(s), multiset(t), multiset{s[i]}, multiset(rest.0), multiset(rest.2),
                 multiset([s[i]] + rest.2));
      }
    }
  }

  /** Taking `x` out of `whole` and splitting the rest into `kept` and
      `written` is the same as splitting `whole` into `kept` and `x` plus
      `written`. */
  lemma MovedOne<T>(whole: multiset<T>, rest: multiset<T>, x: multiset<T>,
                    kept: multiset<T>, written: multiset<T>, written': multiset<T>)
    requires whole == rest + x && rest == kept + written && written' == x + written
    ensures whole == kept + written'
  {
  }

  /** If some entry from index `i` on starts at the cursor, the pass writes at
      least one segment: an entry that is ready is never passed over by every
      later pass. */
  lemma {:induction false} DrainProgress(s: seq<BufItem>, i: nat, cursor: int, k: nat)
    requires i <= k < |s| && s[k].offset == cursor
    ensures |DrainFrom(s, i, cursor).2| > 0
    decreases k - i
  {
    if s[i].offset != cursor {
      DrainProgress(s, i + 1, cursor, k);
    }
  }

  /** The increment after a removal skips the entry moved into the freed slot:
      with the segments at 0 and at `a.datalen` buffered in that order, one pass
      writes only the first and leaves the second, although it now starts at the
      cursor, for the next pass. */
  lemma DrainSkipsNext(a: BufItem, b: BufItem)
    requires a.offset == 0 && b.offset == a.datalen
    ensures DrainFrom([a, b], 0, 0) == ([b], a.datalen, [a])
  {
    assert RemoveAt([a, b], 0) == [b];
    assert DrainFrom([b], 1, a.datalen) == ([b], a.datalen, []);
    assert [a] + [] == [a];
  }

  /** The state of a pass part-way through: `writtenSoFar` has been written and
      the rest of the pass starts from index `i` of `s` with the cursor at `cursor`. */
  predicate DrainResumes(whole: (seq<BufItem>, int, seq<BufItem>), writtenSoFar: seq<BufItem>,
                         s: seq<BufItem>, i: nat, cursor: int)
  {
    var r := DrainFrom(s, i, cursor);
    whole.0 == r.0 && whole.1 == r.1 && whole.2 == writtenSoFar + r.2
  }

  /** Writing the entry at the cursor moves it from what is still to come to
      what is written. */
  lemma DrainAdvance(whole: (seq<BufItem>, int, seq<BufItem>), writtenSoFar: seq<BufItem>,
                     s: seq<BufItem>, i: nat, cursor: int,
                     writtenSoFar': seq<BufItem>, s': seq<BufItem>, cursor': int)
    requires i < |s| && s[i].offset == cursor
    requires DrainResumes(whole, writtenSoFar, s, i, cursor)
    requires writtenSoFar' == writtenSoFar + [s[i]] && s' == RemoveAt(s, i) && cursor' == cursor + s[i].datalen
    ensures DrainResumes(whole, writtenSoFar', s', i + 1, cursor')
  {
    var rest := DrainFrom(RemoveAt(s, i), i + 1, cursor + s[i].datalen);
    assert writtenSoFar + ([s[i]] + rest.2) == (writtenSoFar + [s[i]]) + rest.2;
  }

  /** An entry that does not start at the cursor is passed over. */
  lemma DrainSkip(whole: (seq<BufItem>, int, seq<BufItem>), writtenSoFar: seq<BufItem>,
                  s: seq<BufItem>, i: nat, cursor: int)
    requires i < |s| && s[i].offset != cursor
    requires DrainResumes(whole, writtenSoFar, s, i, cursor)
    ensures DrainResumes(whole, writtenSoFar, s, i + 1, cursor)
  {
  }

  /** The body of the `for` loop of ftransfer.c:191-201 at index `i`: the entry
      there is written and removed when it starts at the cursor, else passed over. */
  method DrainStep(pool: BufItemPool, i: nat, cursor: int, written: seq<BufItem>,
                   ghost whole: (seq<BufItem>, int, seq<BufItem>))
    returns (cursor': int, written': seq<BufItem>)
    requires pool.Valid() && i < pool.nitems
    requires DrainResumes(whole, written, pool.Contents(), i, cursor)
    modifies pool, pool.list
    ensures pool.Valid() && pool.list == old(pool.list) && pool.size == old(pool.size)
    ensures old(pool.nitems) - 1 <= pool.nitems <= old(pool.nitems)
    ensures DrainResumes(whole, written', pool.Contents(), i + 1, cursor')
  {
    ghost var s := pool.Contents();
    if pool.list[i].offset == cursor {
      var e := pool.list[i];
      written' := written + [e];
      cursor' := cursor + e.datalen;
      pool.Remove(i);
      DrainAdvance(whole, written, s, i, cursor, written', pool.Contents(), cursor');
    } else {
      cursor', written' := cursor, written;
      DrainSkip(whole, written, s, i, cursor);
    }
  }

  /** The `for` loop of ftransfer.c:190-202 over the reassembly pool. The
      `write` calls are returned as the sequence of entries written. */
  method DrainPass(pool: BufItemPool, cursor: int) returns (newCursor: int, written: seq<BufItem>)
    requires pool.Valid()
    modifies pool, pool.list
    ensures pool.Valid() && pool.list == old(pool.list) && pool.size == old(pool.size)
    ensures var r := DrainFrom(old(pool.Contents()), 0, cursor);
            pool.Contents() == r.0 && newCursor == r.1 && written == r.2
  {
    ghost var whole := DrainFrom(pool.Contents(), 0, cursor);
    newCursor, written := cursor, [];
    var i := 0;
    assert written + whole.2 == whole.2;
    while i < pool.nitems
      invariant pool.Valid() && pool.list == old(pool.list) && pool.size == old(pool.size)
      invariant i <= pool.nitems + 1
      invariant DrainResumes(whole, written, pool.Contents(), i, newCursor)
      decreases pool.nitems + 1 - i
    {
      newCursor, written := DrainStep(pool, i, newCursor, written, whole);
      i := i + 1;
    }
  }

  /** One iteration of the receiver's main loop (ftransfer.c:186-204): nothing
      happens while the pool is empty; otherwise one drain pass runs and the
      end test of line 203 is taken: the whole file has been written. */
  method ReceiverPass(pool: BufItemPool, cursor: int, fsize: nat)
    returns (newCursor: int, written: seq<BufItem>, end: bool)
    requires pool.Valid()
    modifies pool, pool.list
    ensures pool.Valid() && pool.list == old(pool.list) && pool.size == old(pool.size)
    ensures old(pool.nitems) == 0 ==>
              pool.Contents() == old(pool.Contents()) && newCursor == cursor && written == [] && !end
    ensures old(pool.nitems) != 0 ==>
              var r := DrainFrom(old(pool.Contents()), 0, cursor);
              pool.Contents() == r.0 && newCursor == r.1 && written == r.2 &&
              (end <==> r.1 == fsize)
  {
    if pool.nitems == 0 {
      return cursor, [], false;
    }
    newCursor, written := DrainPass(pool, cursor);
    end := newCursor == fsize;
  }

  // ---------------------------------------------------------- data listener

  /** The payload `add_bitem` copies out of a received datagram: `datalen`
      bytes after the header, cut at the end of the datagram buffer. */
  function PayloadBytes(cfg: Config, packet: seq<bv8>, datalen: U16): (data: seq<bv8>)
    requires cfg.Valid() && |packet| == cfg.packSize
    ensures |data| <= datalen
    ensures cfg.headerSize + datalen <= cfg.packSize ==>
              |data| == datalen &&
              forall k :: 0 <= k < |data| ==> data[k] == packet[cfg.headerSize + k]
  {
    var stop := if cfg.headerSize + datalen <= |packet| then cfg.headerSize + datalen else |packet|;
    packet[cfg.headerSize..stop]
  }

  /** One datagram handled by the listener (ftransfer.c:251-276), with the
      sequence number `seqNo`, the flag word `flag` and the whole datagram
      `packet` as received. The multiplier is updated against `lastseq`, which
      keeps the value `initack` it was given at ftransfer.c:241. A segment
      starting below the file cursor is dropped and nothing is sent; any other
      segment is offered to the reassembly pool and answered with an
      acknowledgment carrying `nextack`, which advances to the end of the
      segment only when the segment starts exactly at the cursor. */
  method ListenDataPacket(cfg: Config, pool: BufItemPool, ws: WrapState, initack: U16, cursor: int,
                          nextack: U16, seqNo: U16, flag: U16, packet: seq<bv8>)
    returns (ws': WrapState, nextack': U16, reply: Option<AckPacket>)
    requires cfg.Valid() && pool.Valid() && |packet| == cfg.packSize
    modifies pool, pool.list
    ensures pool.Valid() && pool.list == old(pool.list) && pool.size == old(pool.size)
    ensures ws'.lastseq == ws.lastseq
    ensures ws'.multiplier == NextMultiplier(cfg, ws.lastseq, seqNo, ws.multiplier)
    ensures var offset := ResolveOffset(cfg, seqNo, ws'.multiplier, initack);
            var datalen := PayloadLength(flag);
            if offset < cursor then
              pool.Contents() == old(pool.Contents()) && nextack' == nextack && reply == None
            else
              pool.Contents() ==
                Insert(old(pool.Contents()), pool.size, BufItem(offset, datalen, PayloadBytes(cfg, packet, datalen))) &&
              nextack' == NextAck(offset, cursor, seqNo, datalen, nextack) &&
              reply == Some(AckPacket(nextack', cfg.ackFlag))
  {
    var u := UnwrapAsWritten(cfg, ws, initack, seqNo);
    ws' := u.0;
    var offset := u.1;
    if offset < cursor {
      return ws', nextack, None;
    }
    var datalen := PayloadLength(flag);
    pool.Add(offset, PayloadBytes(cfg, packet, datalen), datalen);
    nextack' := if offset == cursor then Trunc16(seqNo + datalen) else nextack;
    reply := Some(AckPacket(nextack', cfg.ackFlag));
  }
}
