/** The sender's outstanding-segment pool (`wnditempool_t`): a growable array
    of the segments sent so far, with the time each was last sent
    (ftransfer.c:282-296 and 325-328). */
module WndPool {
  import opened Common

  /** A `wnditem_t`: where the segment starts in the file, the wire sequence
      number it was sent with, its length, an acknowledgment count and the time
      of its last transmission. */
  datatype WndItem = WndItem(offset: nat, seqNo: U16, datalen: U16, nacked: int, tv: TimeVal)

  /** A slot as `calloc` leaves it. */
  const Zeroed: WndItem := WndItem(0, 0, 0, 0, TimeVal(0, 0))

  /** How many whole entries the block holds after `add_witem` grows it as
      ftransfer.c:285-286 writes it: `size` is doubled, but `realloc` is asked
      for `size` bytes, not `size` entries of `entryBytes` bytes each. */
  function GrownCapacityAsWritten(size: nat, entryBytes: nat): (entries: nat)
    requires entryBytes > 0
    ensures entries * entryBytes <= 2 * size
  {
    DivBounds(2 * size, entryBytes);
    (2 * size) / entryBytes
  }

  /** As soon as an entry takes three bytes or more (a `wnditem_t` holds an
      `off_t` and a `struct timeval`, so it takes far more), the grown block holds
      fewer entries than were already recorded: some recorded entries are cut
      off, and the new entry is written past the end of the block. */
  lemma GrowthAsWrittenLosesEntries(size: nat, entryBytes: nat)
    requires size > 0 && entryBytes >= 3
    ensures GrownCapacityAsWritten(size, entryBytes) < size
  {
    var q := GrownCapacityAsWritten(size, entryBytes);
    assert q * 3 <= q * entryBytes;
  }

  /** A `wnditempool_t`: `list` holds `size` slots, the first `nitems` of them in use. */
  class WndItemPool {
    var list: array<WndItem>
    var nitems: nat
    var size: nat

    ghost predicate Valid()
      reads this
    {
      0 < size == list.Length && nitems <= size
    }

    /** The recorded segments, in the order they were recorded. */
    ghost function Contents(): seq<WndItem>
      reads this, list
      requires Valid()
    {
      list[..nitems]
    }

    /** The pool `ftransfer_sender` sets up: four zeroed slots, none in use
        (ftransfer.c:62-64). */
    constructor ()
      ensures Valid() && fresh(list)
      ensures size == 4 && Contents() == []
    {
      nitems := 0;
      size := 4;
      list := new WndItem[4](_ => Zeroed);
    }

    /** `add_witem` (ftransfer.c:282-296) with the growth it intends: when every
        slot is in use the capacity doubles and every recorded entry is kept;
        the new entry goes at the end with no acknowledgments counted. */
    method Add(offset: nat, seqNo: U16, datalen: U16, tv: TimeVal)
      requires Valid()
      modifies this, list
      ensures Valid() && (list == old(list) || fresh(list))
      ensures size == if old(nitems) == old(size) then 2 * old(size) else old(size)
      ensures nitems == old(nitems) + 1
      ensures Contents() == old(Contents()) + [WndItem(offset, seqNo, datalen, 0, tv)]
    {
      if nitems == size {
        var grown := new WndItem[2 * size](_ => Zeroed);
        forall k | 0 <= k < size {
          grown[k] := list[k];
        }
        list := grown;
        size := 2 * size;
      }
      list[nitems] := WndItem(offset, seqNo, datalen, 0, tv);
      nitems := nitems + 1;
    }

    /** `update_timer` (ftransfer.c:325-328): only the send time of entry
        `index` changes; its other fields, the other entries, the count and the
        capacity stay as they were. */
    method UpdateTimer(index: nat, tv: TimeVal)
      requires Valid() && index < nitems
      modifies list
      ensures Valid() && |Contents()| == |old(Contents())|
      ensures Contents()[index] == old(Contents())[index].(tv := tv)
      ensures forall k :: 0 <= k < nitems && k != index ==> Contents()[k] == old(Contents())[k]
    {
      list[index] := list[index].(tv := tv);
    }
  }
}
