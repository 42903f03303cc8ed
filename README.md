# A Dafny model of the `ftransfer` transfer engine

This project models the core of `ftransfer.c`. That file is the file-transfer engine of a reliable-transfer protocol that runs over UDP datagrams. The model covers:

- **Sequence space** (`SeqSpace`, seqspace.dfy). The sender stamps each segment with a 16-bit wire sequence number, `initseq + foffset % MAXSEQNUM`. It packs the payload length above a 3-bit control field in the flag word. The receiver's data listener reverses this. It adds one to a multiplier for every segment whose wire number lies more than OFTHRESH from `lastseq`. `lastseq` stays at the initial number `initack` (ftransfer.c:241, 254-256), so the distance is measured from `initack`, not from the previous segment. It also resolves the offset in 32-bit unsigned arithmetic and picks the cumulative acknowledgment.
- **Reassembly pool** (`BufPool`, bufpool.dfy). This is the receiver's fixed-capacity array of buffered segments (`add_bitem`, `remove_bitem`).
- **Window pool** (`WndPool`, wndpool.dfy). This is the sender's growable array of outstanding segments (`add_witem`, `update_timer`).
- **Sender engine** (`Sender`, sender.dfy). One pass of `ftransfer_sender`'s main loop:
  - the window limit and the packet budget;
  - the admission of new segments;
  - the retransmission scan;
  - the end test.
- **Receiver engine** (`Receiver`, receiver.dfy). Two parts:
  - the data listener's handling of one datagram;
  - one pass of `ftransfer_recver`'s drain loop, which writes buffered segments to the file in offset order and removes them from the pool.
- **Shared definitions** (`Common`, common.dfy): C's 16- and 32-bit truncation, C's truncating division, and the build-time constants.

The constants come from `ftransfer.h`, which is not part of this model. They are fields of a `Config` value, and `Config.Valid()` states the bounds the code relies on:
- a sequence cycle of at most 2^16 values;
- a payload that fits one cycle and the 13-bit length field;
- a header plus a payload that fit one datagram;
- an ACK bit below bit 3.

The two pools are classes over arrays. The two loops over the pools, and the sender's admission loop, are methods proved against reference functions:
- `Admit`, `Resent` and `ScanVars` for the sender;
- `DrainFrom` for the receiver.

The model's properties are stated about those functions.

The sender's file-control variables are a `SendVars` value: `foffset`, the file position `filepos` that `read` and `lseek` move, `bytesread`, `bytesend` and `nodata`. The file's contents are not modelled. A `Datagram` records its sequence number, its flag word, the file position its payload was read from and the payload's length.

Where the code departs from what it evidently intends, the model keeps both versions. The "as written" member carries a lemma that exhibits the difference, and the corrected member carries the intended property. "## Findings" lists these. The engines use the code as written in three places:
- the packet budget of ftransfer.c:74;
- the scan's handling of `foffset` and the file position (ftransfer.c:114-127);
- the frozen `lastseq` of the listener (ftransfer.c:241).

They use the corrected version in three others:
- the reassembly pool's `Remove`;
- the window pool's `Add`;
- the retransmission flag word.

"## Left out" names each of these.

Some behaviour of the code differs from what its comments and names suggest. The model follows the code:
- **Stale segments.** A segment below the delivery cursor is only logged as a retransmission ACK (ftransfer.c:260-262). No acknowledgment is sent for it, so `Receiver.ListenDataPacket` returns no reply in that case.
- **End of the sender.** The sender's end test needs `bytesacked == fsize`, but `bytesacked` is never updated after its initialisation to 0 (ftransfer.c:24, 137). `Sender.SenderPass` states the consequence: a pass ends only when `nodata` is set and the file is empty.
- **End of data.** The loop's comment says it runs "while there's more data" (ftransfer.c:69), and `nodata` names the end of the data. But `nodata` is raised only when the count of the *last* read equals the whole file size (ftransfer.c:78). `Sender.NoDataOnlyForOneChunkFiles` and `Sender.AdmitPastEndRepeatsEmpty` state the consequences: a file longer than DATASIZE never raises `nodata`. Once the file position is at or past the end of the file, every further datagram is an empty segment. This lasts until a retransmission moves the file position back (see the Findings row for ftransfer.c:127).
- **Empty pool.** The receiver takes its end test only after finding the pool non-empty (ftransfer.c:188-189). An empty file therefore never ends the receiver, and `Receiver.ReceiverPass` states this case.
- **Initial numbers.** The lemmas that match the receiver against the sender take one initial number for both sides. That number is the sender's `initseq = self->seq` (ftransfer.c:30) and the receiver's `initack = other->seq + 1` (ftransfer.c:151). The two agree only if the connection set-up leaves them so. The set-up is not part of this model, so the lemmas assume it.

## Model

| member | source | states |
|---|---|---|
| Common.Trunc16 | ftransfer.c:74 | storing into a `uint16_t` keeps a value in [0, 2^16) congruent to the input, and leaves in-range values alone |
| Common.Trunc32 | ftransfer.c:258 | a 32-bit `unsigned` result lies in [0, 2^32), is congruent to the exact value, and equals it when that is in range |
| Common.CDiv | ftransfer.c:74 | C division truncates toward zero: the quotient times the divisor lies within one divisor of the dividend, on the dividend's side of zero |
| SeqSpace.WireSeq | ftransfer.c:89 | the wire number of a segment lies `foffset % MAXSEQNUM` past `initseq`, modulo 2^16 |
| SeqSpace.PayloadLength | ftransfer.c:264 | `flag >> 3` is the length whose eight-fold brackets the flag word, and it is below 2^13 |
| SeqSpace.DataFlag | ftransfer.c:90 | `bytesread << 3` has its control bits clear and decodes back to any length below 2^13 |
| SeqSpace.AbsDiff16 | ftransfer.c:254 | `deltaseq` is the distance between the two 16-bit values, in either direction |
| SeqSpace.NextMultiplier | ftransfer.c:254-256 | the multiplier grows by exactly one iff the new wire number lies more than OFTHRESH from `lastseq`, and otherwise stays |
| SeqSpace.ResolveOffset | ftransfer.c:258 | the offset is the 32-bit wrap of `seq + multiplier*MAXSEQNUM - initack`, and it is exact when that lies in [0, 2^32) |
| SeqSpace.NextAck | ftransfer.c:268 | for a segment starting at the cursor, `nextack` lies `datalen` past its wire number, modulo 2^16; for any other it is unchanged |
| SeqSpace.ResolveInvertsWireSeq | ftransfer.c:258 | with one initial number for both sides, resolving the sender's wire number for `foffset` with the sender's cycle count gives back `foffset` |
| SeqSpace.AckNamesNextExpected | ftransfer.c:268 | with one initial number for both sides and a 16-bit cycle, the acknowledgment for an in-order segment is the wire number of the byte just after it |
| SeqSpace.UnwrapAsWritten | ftransfer.c:241-258 | one segment as written: the multiplier is updated and the offset resolved, but `lastseq` never moves |
| SeqSpace.Unwrap | ftransfer.c:241-258 | one segment with `lastseq` following the stream: `lastseq` becomes the new wire number |
| SeqSpace.ResolveAllAsWritten | ftransfer.c:244-258 | resolving a stream as written gives one offset per wire number |
| SeqSpace.ResolveAll | ftransfer.c:244-258 | resolving a stream with `lastseq` tracking gives one offset per wire number |
| SeqSpace.WireSeqs | ftransfer.c:89 | the sender's wire numbers for a list of offsets, one per offset, each `WireSeq` of that offset |
| SeqSpace.UnwrapFollowsStep | ftransfer.c:254-258 | a forward step of at most OFTHRESH from offset p to o moves the tracking resolver from the state after p to the state after o, and resolves o exactly, across a wrap too |
| SeqSpace.ResolveAllRecoversOffsets | ftransfer.c:254-258 | with one initial number for both sides, `lastseq` tracking and a 16-bit cycle, every offset of a stream of such steps is recovered from its wire number |
| SeqSpace.InitialStateIsOffsetZero | ftransfer.c:240-241 | the listener's initial state (multiplier 0, `lastseq` = `initack`) is the tracking state after offset 0 |
| SeqSpace.FrozenLastSeqMisresolves | ftransfer.c:241-258 | from initial number 65000, offsets 500, 1000, 1500 go out as 65500, 464, 964; as written they resolve to 500, 1000, 67036, and with tracking to 500, 1000, 1500 |
| SeqSpace.FrozenLastSeqMisresolvesWithoutWrap | ftransfer.c:241-258 | with OFTHRESH from 512 to 1023 and initial number 0, offsets 0, 512, 1024, 1536 go out as those numbers; as written they resolve to 0, 512, 66560, 132608 with no wraparound at all, and with tracking to 0, 512, 1024, 1536 |
| BufPool.Insert | ftransfer.c:298-314 | adding appends exactly when the pool is below capacity and the offset is not buffered, and otherwise changes nothing; it never exceeds capacity and keeps offsets distinct |
| BufPool.InsertSameOffsetTwice | ftransfer.c:304-307 | a second segment with an offset just added is not stored again |
| BufPool.RemoveAt | ftransfer.c:316-323 | removing an entry keeps all the others in order, shifted down past it; the multiset loses just that entry, and its offset is no longer held |
| BufPool.RemoveAsWritten | ftransfer.c:318-321 | as written, the count drops by one, unless it is 0, and slot `index` is zeroed after the shift |
| BufPool.RemoveAsWrittenLosesNext | ftransfer.c:318-321 | as written, removing any but the last active entry leaves a zeroed active slot where the intended removal puts the next entry |
| BufPool.RemoveAsWrittenExample | ftransfer.c:318-321 | removing the first of two entries as written leaves one active, zeroed slot, while the intended removal leaves the second entry |
| BufPool.BufItemPool.constructor | ftransfer.c:179-181 | a new pool has MAXSEQNUM / DATASIZE slots, at least one, and no active entry |
| BufPool.BufItemPool.HasOffset | ftransfer.c:304-307 | the scan finds the offset iff an active entry holds it |
| BufPool.BufItemPool.Add | ftransfer.c:298-314 | the active entries become `Insert` of the old ones with the new segment, in the same array and capacity |
| BufPool.ShiftDown | ftransfer.c:318 | the `memmove` read as shifting whole entries: the slots before `to - 1` then hold the old active prefix with the entry at `from` removed, and the slots from `to - 1` on are unchanged |
| BufPool.BufItemPool.Remove | ftransfer.c:316-323 | the active entries become `RemoveAt` of the old ones at `index`, in the same array |
| WndPool.GrownCapacityAsWritten | ftransfer.c:284-286 | the block `realloc` returns holds at most 2*size bytes' worth of entries |
| WndPool.GrowthAsWrittenLosesEntries | ftransfer.c:284-286 | with entries of three bytes or more, the grown block holds fewer entries than were already recorded |
| WndPool.WndItemPool.constructor | ftransfer.c:62-64 | a new window pool has four slots and no entry |
| WndPool.WndItemPool.Add | ftransfer.c:282-296 | a full pool doubles its capacity and keeps every entry; the new entry, with no acknowledgments, is appended |
| WndPool.WndItemPool.UpdateTimer | ftransfer.c:325-328 | only the send time of entry `index` changes |
| Sender.Limit | ftransfer.c:73 | the limit is the smaller of `cwnd` and `rwnd` |
| Sender.PacketBudgetAsWritten | ftransfer.c:74 | while `bytesend <= limit`, the budget is the number of whole datagrams that fit in `limit - bytesend` |
| Sender.BudgetWrapsPastLimit | ftransfer.c:74 | `k` datagrams past the limit, the budget as written is 65536 - k |
| Sender.PacketBudget | ftransfer.c:74 | the intended budget: a count of datagrams that fit under the limit, where one more would not, and 0 once the limit is reached |
| Sender.BudgetsAgreeWithinLimit | ftransfer.c:74 | the two budgets are equal while `bytesend <= limit` |
| Sender.ReadAt | ftransfer.c:118 | a `read` of `want` bytes at a position returns at most `want`, nothing at or past the end of the file, and otherwise all of `want` or the rest of the file |
| Sender.ReadCount | ftransfer.c:84 | a read of DATASIZE at the file position returns DATASIZE bytes, or the rest of the file, or 0 at its end, and never passes the end |
| Sender.Admit | ftransfer.c:77-103 | admission records one entry per datagram sent, at most `budget` of them, and fewer only when it stopped with `nodata` set; `bytesend` never drops |
| Sender.AdmitStampsEntries | ftransfer.c:89-93 | every entry recorded carries its own offset's wire number, no acknowledgment and the pass time; its datagram carries that number, the shifted length and as many bytes as the entry's length |
| Sender.AdmitReadsAtPosition | ftransfer.c:84-94 | each datagram's bytes come from the file position, which stays as far from the entry's recorded offset as the position was from `foffset` when the loop began |
| Sender.AdmitIsContiguous | ftransfer.c:84-94 | the recorded segments cover the file back to back from the old `foffset` to the new one; the file position moves on by the same amount and never passes `fsize` if it started within the file |
| Sender.NoDataOnlyForOneChunkFiles | ftransfer.c:78-81 | `nodata` is raised only if it was already set, or the last read was the whole file, or the file fits one segment |
| Sender.AdmitPastEndRepeatsEmpty | ftransfer.c:77-94 | once the position is at or past the end of a non-empty file that did not fit one read, every datagram of the budget is an empty segment recorded again at the same `foffset` |
| Sender.AdmitChargesPerDatagram | ftransfer.c:98-102 | `bytesend` grows by PACKSIZE for each datagram sent |
| Sender.BudgetKeepsWithinLimit | ftransfer.c:73-103 | admitting under the intended budget never takes `bytesend` past the limit |
| Sender.SendOne | ftransfer.c:82-102 | one round once data remains: the chunk is read at the file position; the entry appended to the window pool carries `foffset`, that offset's wire number, the count read, no acknowledgments and the current time; the datagram carries that number, the length-carrying flag and the bytes read; `foffset` and the position advance by the count and `bytesend` by one PACKSIZE |
| Sender.AdmitAdvance | ftransfer.c:77-103 | one admission step moves one entry and one datagram from the remaining outcome to what is done |
| Sender.SendNewData | ftransfer.c:77-103 | the loop's variables, the datagrams sent and the window pool's new entries are exactly those of `Admit` |
| Sender.ElapsedMicros | ftransfer.c:109-111 | `d_sec * 1000000 + d_usec` is the time between the two instants in microseconds, whether or not the microsecond fields borrow |
| Sender.TimedOut | ftransfer.c:113 | an entry is due iff more than TIMEOUT milliseconds separate its send time from now; an entry sent at `now` is never due |
| Sender.Retimed | ftransfer.c:126 | the scan changes an entry iff it was due, and then only its send time; afterwards it is not due |
| Sender.RetransmitFlagAsWritten | ftransfer.c:124 | the flag word as written decodes to an eighth of the length |
| Sender.RetransmitFlagMisdecoded | ftransfer.c:124 | the retransmission flag as written decodes to less than the true length, while a first transmission's flag decodes to the length itself |
| Sender.Resend | ftransfer.c:115-124 | a retransmission keeps the entry's sequence number, reads from its offset at most its length, all of it when the entry lies within the file, and (corrected) decodes to its length |
| Sender.Resent | ftransfer.c:106-135 | the scan sends at most one datagram per entry |
| Sender.ResentCoversDue | ftransfer.c:106-135 | the scan sends exactly as many datagrams as entries are due, and the retransmission of each due entry comes right after those of the due entries before it, so each is resent once and in order |
| Sender.ResentDecodesLengths | ftransfer.c:113-124 | every datagram the scan sends is the retransmission of an entry that timed out, from its offset, and decodes to that entry's length |
| Sender.ScanIsIdempotent | ftransfer.c:113-126 | after a scan at time `now`, a second scan at the same time resends nothing |
| Sender.ResentOfFresh | ftransfer.c:106-135 | entries that have not timed out are not resent |
| Sender.Reread | ftransfer.c:114-127 | as written, re-sending an entry sets `foffset` to the position saved before the re-read and leaves the position after the bytes re-read at the entry's offset |
| Sender.ScanVars | ftransfer.c:106-135 | the scan changes only `foffset`, the position and `bytesread`, and changes nothing when no entry is due |
| Sender.ScanAsWrittenMisplacesNextSegment | ftransfer.c:114-127 | with 512-byte entries at 0 and 512 both due and both variables at 1024, the scan leaves `foffset` at 512 and the position at 1024, and the next admission records offset 512 again and sends it with the bytes from 1024 |
| Sender.RereadRestoring | ftransfer.c:114-127 | the intended re-send, seeking back to the saved position, leaves `foffset` and the position where they were |
| Sender.ScanVarsRestoring | ftransfer.c:106-135 | the intended scan leaves `foffset` and the position where they were |
| Sender.RestoredScanSendsOwnBytes | ftransfer.c:84-127 | with the position restored, an admission after the scan sends every segment with the bytes of the offset its entry records, and all of them |
| Sender.ResendIfDue | ftransfer.c:113-127 | one entry of the scan: a due entry is re-read and resent as `Resend` says and its timer restarts, with the variables moving as `Reread` says; an entry not due changes nothing |
| Sender.RetransmitPass | ftransfer.c:106-135 | each entry is re-stamped iff it had timed out, with nothing else changed; the datagrams sent are `Resent` and the variables are `ScanVars`; afterwards no entry is due |
| Sender.SenderPass | ftransfer.c:73-137 | with `cwnd` at INITCWND, one pass is admission under the budget as line 74 computes it, then the scan over old and new entries; it ends iff `nodata` holds and the file is empty, and `bytesend` stays within the limit |
| Receiver.DrainFrom | ftransfer.c:190-202 | a drain pass never grows the pool |
| Receiver.DrainWritesInOrder | ftransfer.c:190-202 | the segments a pass writes cover the file back to back from the old cursor to the new one |
| Receiver.DrainConserves | ftransfer.c:190-202 | every buffered segment is either still buffered or written, as multisets, and offsets stay distinct |
| Receiver.DrainProgress | ftransfer.c:186-202 | a pass over a pool holding a segment at the cursor writes at least one segment |
| Receiver.DrainSkipsNext | ftransfer.c:190-202 | with segments at 0 and at the first one's end, one pass writes only the first, because the index moves on after the removal |
| Receiver.DrainAdvance | ftransfer.c:190-202 | writing the entry at the cursor moves it from the remaining outcome to what is written |
| Receiver.DrainStep | ftransfer.c:191-201 | one index of the pass: the entry at the cursor is written and removed, any other is passed over, as `DrainFrom` continues |
| Receiver.DrainPass | ftransfer.c:190-202 | the pool's entries, the cursor and the segments written are exactly those of `DrainFrom` |
| Receiver.ReceiverPass | ftransfer.c:186-204 | an empty pool changes nothing and never ends; otherwise one drain pass runs, and it ends iff the cursor reaches `fsize` |
| Receiver.PayloadBytes | ftransfer.c:265 | the copied payload is the `datalen` bytes after the header whenever they lie within the datagram |
| Receiver.ListenDataPacket | ftransfer.c:241-276 | `lastseq` keeps its initial value and the multiplier moves as `NextMultiplier` says; a segment below the cursor changes nothing and gets no reply; any other is offered to the pool and acknowledged with `nextack` as `NextAck` gives it |

## Left out

- Threads: `pthread_create`, the `thrdstop` flag and the sharing of the pools between the listener threads and the main loops are not modelled; every operation runs alone on its pool.
- `listen_ackpacket` has an empty body in the source, so acknowledgments are never processed. `cwnd`, `rwnd`, `ssthresh`, `bytesacked` and the `nacked` counts never change. `Sender.SenderPass` therefore uses INITCWND (`Config.initCwnd`, ftransfer.c:12) for `cwnd` and 0 for `bytesacked`, and takes `rwnd` as a parameter.
- The outer `while (!end)` loops of both engines are modelled one pass at a time (`Sender.SenderPass`, `Receiver.ReceiverPass`), because they need not terminate (see the end clause of `Sender.SenderPass`).
- File I/O: the sender's `lseek` and `read` become the file position `filepos` and `Sender.ReadAt` over the file size. The file's bytes are not modelled, only where each payload was read from and its length. The receiver's `write` is replaced by returning the segments written. A failed `read` ends the sender with `return -1` (ftransfer.c:84-87, 118-121); this error path is left out. A failed `write` is only logged (ftransfer.c:195-197): the drain still advances the cursor past the segment and removes it (ftransfer.c:199-201), so the segment is lost. `Receiver.DrainFrom` does the same, since it advances and removes whatever the write returned.
- `send_packet` and `recv_packet` are left out, and so are their failures: a failed send ends the sender with `return -1` (ftransfer.c:98-101, 130-133), and a failed receive or send in the data listener calls `exit(2)` (ftransfer.c:247-250, 273-276). The listener takes the received header fields and datagram as parameters. Every datagram is assumed to go out whole, so `bsend` is PACKSIZE.
- `gettimeofday`: one clock reading `now` serves a whole sender pass, where the source reads the clock once per segment.
- `fprintf` logging is left out.
- `malloc` and `memcpy` of the payload become a copied `seq<bv8>`. Payload memory is never freed in the source, and this is not modelled.
- Receiver.PayloadBytes: a length word whose payload would reach past the datagram makes the source read beyond its buffer. The model cuts the copy at the datagram's end instead.
- Sender.RetransmitPass: sends the flag word `DataFlag(datalen)` of `Sender.Resend`, not the bare length that ftransfer.c:124 writes (see Findings). `Sender.RetransmitFlagAsWritten` models the written word. The scan's handling of `foffset` and the file position follows the code as written.
- Sender.ResendIfDue: sends the corrected flag word, as `Sender.RetransmitPass` does.
- Sender.SenderPass: inherits the corrected retransmission flag word through `Sender.RetransmitPass`. The budget of ftransfer.c:74 and the scan's position handling follow the code as written.
- Receiver.DrainFrom, Receiver.DrainStep, Receiver.DrainPass, Receiver.ReceiverPass: remove through the corrected `BufPool.RemoveAt` / `BufPool.BufItemPool.Remove`, not the as-written removal of ftransfer.c:321 (see Findings).
- Sender.SendOne, Sender.SendNewData: record through the corrected growth of `WndPool.WndItemPool.Add`, not the byte-sized `realloc` of ftransfer.c:286 (see Findings).
- Sender.Resend, Sender.Resent: build the corrected flag word `DataFlag(datalen)`, not the bare length of ftransfer.c:124 (see Findings).
- SeqSpace.NextMultiplier: the `int` multiplier is unbounded, so its overflow after 2^31 wraps is not modelled.
- SeqSpace.ResolveOffset: the product `multiplier * MAXSEQNUM` at ftransfer.c:258 is an `int` product. It overflows once `multiplier` reaches 2^31 / MAXSEQNUM, which is 2^15 for a 16-bit cycle. With `lastseq` frozen, that takes about 2^15 segments past OFTHRESH. That overflow is undefined in C; the model assumes the usual two's-complement wrap, which `Common.Trunc32` of the exact value gives.
- BufPool.BufItemPool.Remove: requires `index < nitems`, which its one call site (ftransfer.c:201) guarantees. It models the intended shift of whole entries rather than the byte count `memmove` is given. It also clears the vacated last slot, where ftransfer.c:321 clears slot `index` (see Findings).
- WndPool.WndItemPool.Add: models the intended growth by whole entries rather than the byte-sized `realloc` (see Findings).
- `client.c` (connection set-up and argument handling) is not part of this model.

## Findings

| source | as written | input that shows it | evidently intended | confidence | as-written member | corrected member |
|---|---|---|---|---|---|---|
| ftransfer.c:241 | `lastseq` is set once to `initack` and never updated, so every segment is compared against the initial number | MAXSEQNUM 65536, OFTHRESH from 512 to 1023, initial number 0, offsets 0, 512, 1024, 1536: with no wraparound they resolve to 0, 512, 66560, 132608, so every segment more than OFTHRESH past the start is misplaced | `lastseq` follows the last wire number seen | high, not executed | SeqSpace.FrozenLastSeqMisresolvesWithoutWrap | SeqSpace.ResolveAllRecoversOffsets |
| ftransfer.c:321 | `memset` clears slot `index` after the shift, so it erases the entry moved into it | two buffered segments, remove index 0: one active entry is left, and it is zeroed | clear the vacated last slot | high, not executed | BufPool.RemoveAsWrittenLosesNext | BufPool.BufItemPool.Remove |
| ftransfer.c:286 | `realloc` is given `size` bytes, not `size` entries | any entry of 3 bytes or more: a pool of 4 grows to fewer than 4 entries | `size * sizeof(wnditem_t)` bytes | high, not executed | WndPool.GrowthAsWrittenLosesEntries | WndPool.WndItemPool.Add |
| ftransfer.c:124 | the retransmission flag is the bare length, without `<< 3` | a 512-byte segment is resent and decoded as 64 bytes | `datalen << 3`, as at line 90 | high, not executed | Sender.RetransmitFlagMisdecoded | Sender.ResentDecodesLengths |
| ftransfer.c:127 | the scan saves the position in `tempoffset`, seeks to the entry, re-reads, and then sets `foffset = tempoffset` without seeking back | 512-byte entries at 0 and 512, both due, `foffset` and the position at 1024: the scan leaves `foffset` at 512 and the position at 1024, and the next admission records offset 512 again with the bytes from 1024 | seek back to `tempoffset`, leaving `foffset` alone | high, not executed | Sender.ScanAsWrittenMisplacesNextSegment | Sender.RestoredScanSendsOwnBytes |
| ftransfer.c:74 | a negative `limit - bytesend` divides to a negative count stored into a `uint16_t` | `bytesend` one PACKSIZE past the limit gives a budget of 65535. The input is latent in this file: `cwnd` and `rwnd` never change because `listen_ackpacket` is empty (ftransfer.c:208-222), and admission keeps `bytesend` within the limit (`Sender.BudgetKeepsWithinLimit`). It would arise once the window shrinks | no datagrams once the limit is reached | medium (latent), not executed | Sender.BudgetWrapsPastLimit | Sender.BudgetKeepsWithinLimit |
