/** The receiver's reassembly pool (`bufitempool_t`): a fixed-capacity list of
    segments that arrived but have not yet been written to the file
    (ftransfer.c:298-323). The pool keeps no two entries with the same offset
    and never holds more than its capacity. */
module BufPool {
  import opened Common

  /** A `bufitem_t`: the segment's file offset, its length, and the copy of its
      payload (the bytes themselves are not interpreted by the pool). */
  datatype BufItem = BufItem(offset: int, datalen: U16, data: seq<bv8>)

  /** A slot as `calloc` and `memset` leave it: all fields zero. */
  const Cleared: BufItem := BufItem(0, 0, [])

  /** Some entry of `s` starts at `offset`. */
  predicate HoldsOffset(s: seq<BufItem>, offset: int)
  {
    exists k :: 0 <= k < |s| && s[k].offset == offset
  }

  /** No two entries of `s` start at the same offset. */
  predicate DistinctOffsets(s: seq<BufItem>)
  {
    forall i, j :: 0 <= i < j < |s| ==> s[i].offset != s[j].offset
  }

  /** The active entries after `add_bitem` on a pool of the given capacity:
      unchanged when full or when the offset is already buffered, otherwise
      the new entry appended after all earlier ones. */
  function Insert(s: seq<BufItem>, capacity: nat, item: BufItem): (r: seq<BufItem>)
    ensures r == s || r == s + [item]
    ensures r == s + [item] <==> |s| < capacity && !HoldsOffset(s, item.offset)
    ensures HoldsOffset(r, item.offset) <==> HoldsOffset(s, item.offset) || |s| < capacity
    ensures |s| <= capacity ==> |r| <= capacity
    ensures DistinctOffsets(s) ==> DistinctOffsets(r)
  {
    if |s| >= capacity || HoldsOffset(s, item.offset) then s
    else
      assert (s + [item])[|s|].offset == item.offset;
      s + [item]
  }

  /** Inserting a second segment with the offset of one just inserted changes
      nothing: a pool never stores the same offset twice. */
  lemma InsertSameOffsetTwice(s: seq<BufItem>, capacity: nat, a: BufItem, b: BufItem)
    requires a.offset == b.offset
    ensures var once := Insert(s, capacity, a);
            |s| < capacity ==> Insert(once, capacity, b) == once
  {
    var once := Insert(s, capacity, a);
    if |s| < capacity {
      assert HoldsOffset(once, a.offset);
    }
  }

  /** The active entries after removing the one at `index`: all the others, in
      their order. */
  function RemoveAt(s: seq<BufItem>, index: nat): (r: seq<BufItem>)
    requires index < |s|
    ensures |r| == |s| - 1
    ensures forall k :: 0 <= k < index ==> r[k] == s[k]
    ensures forall k :: index <= k < |r| ==> r[k] == s[k + 1]
    ensures multiset(s) == multiset(r) + multiset{s[index]}
    ensures DistinctOffsets(s) ==> DistinctOffsets(r) && !HoldsOffset(r, s[index].offset)
  {
    assert s == s[..index] + [s[index]] + s[index + 1..];
    s[..index] + s[index + 1..]
  }

  /** `remove_bitem` as ftransfer.c:318-321 writes it, over all `size` slots
      and the count of active ones. Even read generously (the `memmove` taken
      to shift whole entries, though its length is `size - (index + 1)` bytes),
      the `memset` that follows clears slot `index`, which by then holds the
      entry shifted in from `index + 1`. */
  function RemoveAsWritten(slots: seq<BufItem>, nitems: nat, index: nat): (r: (seq<BufItem>, nat))
    requires index < |slots| && nitems <= |slots|
    ensures |r.0| == |slots| && r.0[index] == Cleared
    ensures r.1 == if nitems == 0 then 0 else nitems - 1
  {
    var shifted := slots[..index] + slots[index + 1..] + [slots[|slots| - 1]];
    (shifted[index := Cleared], if nitems != 0 then nitems - 1 else 0)
  }

  /** As written, removing any entry but the last active one loses the entry
      after it: the active slot `index` ends up cleared where the intended
      removal puts the next entry. */
  lemma RemoveAsWrittenLosesNext(slots: seq<BufItem>, nitems: nat, index: nat)
    requires index + 1 < nitems <= |slots|
    ensures var r := RemoveAsWritten(slots, nitems, index);
            index < r.1 && r.0[index] == Cleared &&
            RemoveAt(slots[..nitems], index)[index] == slots[index + 1]
  {
  }

  /** For example, removing the first of two buffered segments leaves one
      active entry, and it is the cleared slot rather than the second segment. */
  lemma RemoveAsWrittenExample(a: BufItem, b: BufItem)
    ensures RemoveAsWritten([a, b, Cleared], 2, 0) == ([Cleared, Cleared, Cleared], 1)
    ensures RemoveAt([a, b], 0) == [b]
  {
    var slots := [a, b, Cleared];
    assert slots[..0] + slots[1..] + [slots[|slots| - 1]] == [b, Cleared, Cleared];
    assert [b, Cleared, Cleared][0 := Cleared] == [Cleared, Cleared, Cleared];
    var r := RemoveAsWritten(slots, 2, 0);
    assert r.0 == [b, Cleared, Cleared][0 := Cleared];
  }

  /** The `memmove` of `remove_bitem`, by whole entries: the first `to` slots
      lose the entry at `from` as `RemoveAt` does, and the slots from `to - 1`
      on keep their entries. */
  method ShiftDown(a: array<BufItem>, from: nat, to: nat)
    requires from < to <= a.Length
    modifies a
    ensures a[..to - 1] == RemoveAt(old(a[..to]), from)
    ensures a[to - 1..] == old(a[to - 1..])
  {
    var k := from;
    while k + 1 < to
      invariant from <= k < to
      invariant forall j :: 0 <= j < from ==> a[j] == old(a[j])
      invariant forall j :: from <= j < k ==> a[j] == old(a[j + 1])
      invariant forall j :: k <= j < a.Length ==> a[j] == old(a[j])
    {
      a[k] := a[k + 1];
      k := k + 1;
    }
    ShiftIsRemoval(old(a[..]), a[..], from, to);
  }

  /** A sequence that agrees with `s` except that the entries from `from + 1`
      to `to - 1` sit one place lower is `s` without its entry at `from` in its
      first `to - 1` places, and `s` itself from there on. */
  lemma ShiftIsRemoval(s: seq<BufItem>, t: seq<BufItem>, from: nat, to: nat)
    requires from < to <= |s| == |t|
    requires forall j :: 0 <= j < from ==> t[j] == s[j]
    requires forall j :: from <= j < to - 1 ==> t[j] == s[j + 1]
    requires forall j :: to - 1 <= j < |t| ==> t[j] == s[j]
    ensures t[..to - 1] == RemoveAt(s[..to], from)
    ensures t[to - 1..] == s[to - 1..]
  {
    var r := RemoveAt(s[..to], from);
    forall j | 0 <= j < to - 1
      ensures t[j] == r[j]
    {
      if j < from {
        assert r[j] == s[..to][j];
      } else {
        assert r[j] == s[..to][j + 1];
      }
    }
    assert t[..to - 1] == r;
  }

  /** A `bufitempool_t`: `list` holds `size` slots, the first `nitems` of them active. */
  class BufItemPool {
    var list: array<BufItem>
    var nitems: nat
    var size: nat

    ghost predicate Valid()
      reads this, list
    {
      size == list.Length && nitems <= size && DistinctOffsets(list[..nitems])
    }

    /** The active entries, in slot order. */
    ghost function Contents(): seq<BufItem>
      reads this, list
      requires Valid()
    {
      list[..nitems]
    }

    /** The pool `ftransfer_recver` sets up: MAXSEQNUM / DATASIZE zeroed slots,
        none active (ftransfer.c:179-181). */
    constructor (cfg: Config)
      requires cfg.Valid()
      ensures Valid() && fresh(list)
      ensures size == cfg.maxSeqNum / cfg.dataSize && size > 0
      ensures Contents() == []
    {
      size := cfg.maxSeqNum / cfg.dataSize;
      list := new BufItem[cfg.maxSeqNum / cfg.dataSize](_ => Cleared);
      nitems := 0;
    }

    /** The scan of `add_bitem` (ftransfer.c:304-307): is `offset` already buffered? */
    method HasOffset(offset: int) returns (found: bool)
      requires Valid()
      ensures found <==> HoldsOffset(Contents(), offset)
    {
      var i := 0;
      while i < nitems
        invariant 0 <= i <= nitems
        invariant forall k :: 0 <= k < i ==> list[k].offset != offset
      {
        if list[i].offset == offset {
          assert Contents()[i].offset == offset;
          return true;
        }
        i := i + 1;
      }
      return false;
    }

    /** `add_bitem` (ftransfer.c:298-314). */
    method Add(offset: int, data: seq<bv8>, datalen: U16)
      requires Valid()
      modifies this, list
      ensures Valid() && list == old(list) && size == old(size)
      ensures Contents() == Insert(old(Contents()), size, BufItem(offset, datalen, data))
    {
      if nitems == size {
        return;
      }
      var dup := HasOffset(offset);
      if dup {
        return;
      }
      ghost var before := Contents();
      list[nitems] := BufItem(offset, datalen, data);
      nitems := nitems + 1;
      assert Contents() == before + [BufItem(offset, datalen, data)];
    }

    /** `remove_bitem` (ftransfer.c:316-323) as intended: the entries after
        `index` move down one slot, the vacated last slot is cleared and the
        count drops by one. */
    method Remove(index: nat)
      requires Valid() && index < nitems
      modifies this, list
      ensures Valid() && list == old(list) && size == old(size)
      ensures Contents() == RemoveAt(old(Contents()), index)
    {
      ghost var before := Contents();
      ShiftDown(list, index, nitems);
      ghost var kept := list[..nitems - 1];
      assert kept == RemoveAt(before, index) && DistinctOffsets(kept);
      list[nitems - 1] := Cleared;
      nitems := nitems - 1;
      assert list[..nitems] == kept;
    }
  }
}
