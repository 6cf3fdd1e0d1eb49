/** bio.c: the buffer cache, a fixed table of buffers threaded on a doubly linked
    LRU ring.  The one block device is ROOTDEV, so a buffer's `dev` is only
    "bound to a block" or "never used".  `virtio_disk_rw` is a synchronous block transfer. */
module Bio {
  import opened Common
  import opened LogDisk

  const NBUF := 30   // MAXOPBLOCKS * 3
  const HEAD := 30   // bcache.head lives behind the NBUF real buffers

  /** What a buffer holds, apart from its place in the LRU ring. */
  datatype Slot = Slot(valid: bool, bound: bool, blockno: nat, locked: bool, refcnt: nat, data: Block)

  /** `struct buf`; `prev` and `next` are indices into the table. */
  datatype Buf = Buf(slot: Slot, prev: nat, next: nat)

  /** The device: `trace` lists the image after every block write, so a power
      failure during a call is one of the entries the call appended. */
  class Disk {
    var image: DiskImage
    ghost var trace: seq<DiskImage>

    method Write(bn: nat, data: Block)
      requires bn < |image|
      modifies this
      ensures image == old(image)[bn := data]
      ensures trace == old(trace) + [image]
    {
      image := image[bn := data];
      trace := trace + [image];
    }
  }

  /** `order` walked from the head and back to it. */
  ghost function Ring(order: seq<nat>): seq<nat> {
    [HEAD] + order + [HEAD]
  }

  /** `bufs` is threaded, in both directions, in the order given. */
  ghost predicate Linked(bufs: seq<Buf>, order: seq<nat>) {
    && |bufs| == NBUF + 1
    && (forall i :: 0 <= i < |order| ==> order[i] < NBUF)
    && (forall i, j :: 0 <= i < j < |order| ==> order[i] != order[j])
    && (forall i: nat :: i <= |order| ==> LinkAt(bufs, Ring(order), i))
  }

  ghost predicate LinkAt(bufs: seq<Buf>, r: seq<nat>, i: nat)
    requires i + 1 < |r| && r[i] < |bufs| && r[i + 1] < |bufs|
  {
    bufs[r[i]].next == r[i + 1] && bufs[r[i + 1]].prev == r[i]
  }

  /** Apart from the head at both ends, the ring names every buffer once. */
  lemma RingPositions(order: seq<nat>, p: nat, q: nat)
    requires forall i :: 0 <= i < |order| ==> order[i] < NBUF
    requires forall i, j :: 0 <= i < j < |order| ==> order[i] != order[j]
    requires p < q <= |order| + 1 && q - p <= |order|
    ensures Ring(order)[p] != Ring(order)[q]
  {
  }

  ghost function UnlinkAt(bufs: seq<Buf>, nx: nat, pv: nat): seq<Buf>
    requires nx < |bufs| && pv < |bufs|
  {
    var mid := bufs[nx := bufs[nx].(prev := pv)];
    mid[pv := mid[pv].(next := nx)]
  }

  lemma Unlinked(bufs: seq<Buf>, order: seq<nat>, i: nat)
    requires Linked(bufs, order) && i < |order|
    ensures bufs[order[i]].next == Ring(order)[i + 2] && bufs[order[i]].prev == Ring(order)[i]
    ensures Linked(UnlinkAt(bufs, Ring(order)[i + 2], Ring(order)[i]), order[..i] + order[i + 1..])
  {
    var r := Ring(order);
    assert LinkAt(bufs, r, i) && LinkAt(bufs, r, i + 1);
    var after := UnlinkAt(bufs, r[i + 2], r[i]);
    var r' := Ring(order[..i] + order[i + 1..]);
    forall j: nat | j < |order| ensures LinkAt(after, r', j) {
      UnlinkedAt(order, i, j);
      if j != i {
        var oj, ok := if j < i then j else j + 1, if j < i then j + 1 else j + 2;
        assert LinkAt(bufs, r, oj);
        assert r[oj] != r[i] by { if oj < i { RingPositions(order, oj, i); } else { RingPositions(order, i, oj); } }
        assert r[ok] != r[i + 2] by {
          if ok < i + 2 { RingPositions(order, ok, i + 2); } else { RingPositions(order, i + 2, ok); }
        }
      }
    }
  }

  lemma UnlinkedAt(order: seq<nat>, i: nat, j: nat)
    requires i < |order| && j < |order|
    ensures var r, r' := Ring(order), Ring(order[..i] + order[i + 1..]);
            && |r'| == |order| + 1
            && r'[j] == r[if j <= i then j else j + 1]
            && r'[j + 1] == r[if j < i then j + 1 else j + 2]
  {
  }

  /** Nothing but the two link fields threads the ring. */
  lemma Relink(bufs: seq<Buf>, after: seq<Buf>, order: seq<nat>)
    requires Linked(bufs, order) && |after| == |bufs|
    requires forall s :: 0 <= s <= NBUF ==> after[s].next == bufs[s].next && after[s].prev == bufs[s].prev
    ensures Linked(after, order)
  {
    forall i: nat | i <= |order| ensures LinkAt(after, Ring(order), i) {
      assert LinkAt(bufs, Ring(order), i);
    }
  }

  lemma Pushed(bufs: seq<Buf>, order: seq<nat>, b: nat, after: seq<Buf>)
    requires Linked(bufs, order) && b < NBUF && b !in order
    requires var first := bufs[HEAD].next;
             && first <= NBUF
             && var one := bufs[b := bufs[b].(next := first, prev := HEAD)];
                var two := one[first := one[first].(prev := b)];
                after == two[HEAD := two[HEAD].(next := b)]
    ensures Linked(after, [b] + order)
    ensures forall s :: 0 <= s <= NBUF ==> after[s].slot == bufs[s].slot
  {
    var r, r' := Ring(order), Ring([b] + order);
    assert LinkAt(bufs, r, 0);
    forall j: nat | j <= |order| + 1 ensures LinkAt(after, r', j) {
      if j > 1 {
        assert r'[j] == r[j - 1] && r'[j + 1] == r[j];
        assert LinkAt(bufs, r, j - 1);
      }
    }
  }

  /** `order` with `b` moved to the front, where the most recently used buffer is. */
  ghost function MoveToFront(order: seq<nat>, b: nat): seq<nat>
    requires b in order
  {
    [b] + Without(order, b)
  }

  ghost function Without(order: seq<nat>, b: nat): seq<nat>
    requires b in order
  {
    var i :| 0 <= i < |order| && order[i] == b;
    order[..i] + order[i + 1..]
  }

  /** Position `i` of `order` is the least recently used buffer that nobody references. */
  ghost predicate Victim(slots: seq<Slot>, order: seq<nat>, i: nat) {
    && i < |order|
    && (forall j :: i <= j < |order| ==> order[j] < |slots|)
    && slots[order[i]].refcnt == 0
    && forall j :: i < j < |order| ==> slots[order[j]].refcnt > 0
  }

  ghost predicate Clean(b: Slot, image: DiskImage) {
    b.blockno < |image| && b.data == image[b.blockno]
  }

  /** A bound buffer is the one that holds its block; an unreferenced one is clean. */
  ghost predicate SlotOk(slots: seq<Slot>, s: nat, slotOf: map<nat, nat>, image: DiskImage)
    requires s < |slots|
  {
    var b := slots[s];
    && (b.bound ==> b.blockno in slotOf && slotOf[b.blockno] == s && b.blockno < |image|)
    && (!b.bound ==> b.refcnt == 0 && !b.valid)
    && (b.locked ==> b.refcnt > 0)
    && (b.refcnt == 0 && b.valid ==> Clean(b, image))
  }

  ghost predicate Coherent(slots: seq<Slot>, slotOf: map<nat, nat>, image: DiskImage) {
    && |slots| == NBUF
    && (forall bn :: bn in slotOf ==>
          slotOf[bn] < NBUF && slots[slotOf[bn]].bound && slots[slotOf[bn]].blockno == bn)
    && (forall s: nat :: s < NBUF ==> SlotOk(slots, s, slotOf, image))
  }

  /** What a reader of block `bn` would see. */
  ghost function ReadOf(slots: seq<Slot>, slotOf: map<nat, nat>, image: DiskImage, bn: nat): Block
    requires Coherent(slots, slotOf, image) && bn < |image|
  {
    if bn in slotOf && slots[slotOf[bn]].valid then slots[slotOf[bn]].data else image[bn]
  }

  ghost predicate SameReads(slots: seq<Slot>, slotOf: map<nat, nat>, image: DiskImage,
                            slots': seq<Slot>, slotOf': map<nat, nat>)
    requires Coherent(slots, slotOf, image) && Coherent(slots', slotOf', image)
  {
    forall x: nat :: x < |image| ==> ReadOf(slots', slotOf', image, x) == ReadOf(slots, slotOf, image, x)
  }

  /** Changing reference count and lock of one buffer is invisible to readers, provided
      a buffer that loses its last reference is clean. */
  lemma Recounted(slots: seq<Slot>, slotOf: map<nat, nat>, image: DiskImage, b: nat, refcnt: nat, locked: bool)
    requires Coherent(slots, slotOf, image) && b < NBUF && slots[b].bound
    requires locked ==> refcnt > 0
    requires refcnt == 0 && slots[b].valid ==> Clean(slots[b], image)
    ensures var after := slots[b := slots[b].(refcnt := refcnt, locked := locked)];
            Coherent(after, slotOf, image) && SameReads(slots, slotOf, image, after, slotOf)
  {
    var after := slots[b := slots[b].(refcnt := refcnt, locked := locked)];
    forall s: nat | s < NBUF ensures SlotOk(after, s, slotOf, image) {
      assert SlotOk(slots, s, slotOf, image);
    }
  }

  ghost function Rebound(slots: seq<Slot>, slotOf: map<nat, nat>, b: nat, bn: nat): map<nat, nat>
    requires b < |slots|
  {
    (if slots[b].bound then slotOf - {slots[b].blockno} else slotOf)[bn := b]
  }

  /** Giving an unreferenced buffer to a block that is not cached is invisible to readers. */
  lemma Recycled(slots: seq<Slot>, slotOf: map<nat, nat>, image: DiskImage, b: nat, bn: nat)
    requires Coherent(slots, slotOf, image) && b < NBUF && slots[b].refcnt == 0
    requires bn !in slotOf && bn < |image|
    ensures var after, slotOf' := slots[b := Fresh(slots[b], bn)], Rebound(slots, slotOf, b, bn);
            Coherent(after, slotOf', image) && SameReads(slots, slotOf, image, after, slotOf')
  {
    var after, slotOf' := slots[b := Fresh(slots[b], bn)], Rebound(slots, slotOf, b, bn);
    assert SlotOk(slots, b, slotOf, image);
    forall s: nat | s < NBUF ensures SlotOk(after, s, slotOf', image) {
      assert SlotOk(slots, s, slotOf, image);
    }
  }

  /** Reading the device into a buffer that held nothing yet is invisible to readers. */
  lemma Loaded(slots: seq<Slot>, slotOf: map<nat, nat>, image: DiskImage, b: nat)
    requires Coherent(slots, slotOf, image) && b < NBUF && slots[b].bound && !slots[b].valid
    requires slots[b].blockno < |image|
    ensures var after := slots[b := slots[b].(data := image[slots[b].blockno], valid := true)];
            Coherent(after, slotOf, image) && SameReads(slots, slotOf, image, after, slotOf)
  {
    var after := slots[b := slots[b].(data := image[slots[b].blockno], valid := true)];
    forall s: nat | s < NBUF ensures SlotOk(after, s, slotOf, image) {
      assert SlotOk(slots, s, slotOf, image);
    }
  }

  /** The caller's change to a referenced buffer is what readers of its block see. */
  lemma Changed(slots: seq<Slot>, slotOf: map<nat, nat>, image: DiskImage, b: nat, data: Block)
    requires Coherent(slots, slotOf, image) && b < NBUF && slots[b].locked && slots[b].valid
    ensures var after := slots[b := slots[b].(data := data)];
            && Coherent(after, slotOf, image)
            && forall x: nat :: x < |image| ==>
                 ReadOf(after, slotOf, image, x) ==
                 if x == slots[b].blockno then data else ReadOf(slots, slotOf, image, x)
  {
    var after := slots[b := slots[b].(data := data)];
    assert SlotOk(slots, b, slotOf, image);
    forall s: nat | s < NBUF ensures SlotOk(after, s, slotOf, image) {
      assert SlotOk(slots, s, slotOf, image);
    }
  }

  /** Writing a valid buffer to the device is invisible to readers. */
  lemma Flushed(slots: seq<Slot>, slotOf: map<nat, nat>, image: DiskImage, b: nat)
    requires Coherent(slots, slotOf, image) && b < NBUF && slots[b].locked && slots[b].valid
    ensures slots[b].bound && slots[b].blockno < |image|
    ensures var image' := image[slots[b].blockno := slots[b].data];
            && Coherent(slots, slotOf, image')
            && forall x: nat :: x < |image| ==>
                 ReadOf(slots, slotOf, image', x) == ReadOf(slots, slotOf, image, x)
  {
    assert SlotOk(slots, b, slotOf, image);
    var image' := image[slots[b].blockno := slots[b].data];
    forall s: nat | s < NBUF ensures SlotOk(slots, s, slotOf, image') {
      assert SlotOk(slots, s, slotOf, image);
    }
  }

  /** A buffer that `bget` has just given to block `bn`. */
  function Fresh(was: Slot, bn: nat): Slot {
    was.(bound := true, blockno := bn, valid := false, refcnt := 1, locked := true)
  }

  function Hit(was: Slot): Slot {
    was.(refcnt := was.refcnt + 1, locked := true)
  }

  class BufferCache {
    const disk: Disk
    const buf: array<Buf>
    ghost var slots: seq<Slot>       // the contents of the table, without the links
    ghost var lru: seq<nat>          // most recently used first
    ghost var slotOf: map<nat, nat>  // which buffer holds a block

    ghost predicate Listed()
      reads this, buf
    {
      && Linked(buf[..], lru)
      && (forall s :: 0 <= s < NBUF ==> s in lru)
      && |slots| == NBUF
      && forall s :: 0 <= s < NBUF ==> buf[s].slot == slots[s]
    }

    ghost predicate Valid()
      reads this, buf, disk
    {
      Listed() && Coherent(slots, slotOf, disk.image)
    }

    /** What `bread` would see in block `bn` now. */
    ghost function Read(bn: nat): Block
      requires Coherent(slots, slotOf, disk.image) && bn < |disk.image|
      reads this, disk
    {
      ReadOf(slots, slotOf, disk.image, bn)
    }

    ghost predicate Full(bn: nat)
      reads this
    {
      bn !in slotOf && forall s :: 0 <= s < |slots| ==> slots[s].refcnt > 0
    }

    // Take b out of the ring (the first half of the relinking in brelse).
    method Unlink(b: nat, ghost i: nat)
      requires Linked(buf[..], lru)
      requires i < |lru| && lru[i] == b
      modifies this`lru, buf
      ensures lru == old(lru)[..i] + old(lru)[i + 1..] && Linked(buf[..], lru)
      ensures forall s :: 0 <= s <= NBUF ==> buf[s].slot == old(buf[s].slot)
    {
      Unlinked(buf[..], lru, i);
      var nx, pv := buf[b].next, buf[b].prev;
      buf[nx] := buf[nx].(prev := pv);
      buf[pv] := buf[pv].(next := nx);
      assert buf[..] == UnlinkAt(old(buf[..]), nx, pv);
      lru := lru[..i] + lru[i + 1..];
    }

    // Insert b behind the head (the second half, and the loop body of binit).
    method PushFront(b: nat)
      requires Linked(buf[..], lru)
      requires b < NBUF && b !in lru
      modifies this`lru, buf
      ensures lru == [b] + old(lru) && Linked(buf[..], lru)
      ensures forall s :: 0 <= s <= NBUF ==> buf[s].slot == old(buf[s].slot)
    {
      ghost var r := Ring(lru);
      assert LinkAt(buf[..], r, 0);
      var first := buf[HEAD].next;
      buf[b] := buf[b].(next := first, prev := HEAD);
      buf[first] := buf[first].(prev := b);
      buf[HEAD] := buf[HEAD].(next := b);
      Pushed(old(buf[..]), lru, b, buf[..]);
      lru := [b] + lru;
    }

    // Store into the fields of buffer b that are not links.
    method Set(b: nat, slot: Slot)
      requires Listed() && b < NBUF
      modifies this`slots, buf
      ensures Listed() && slots == old(slots)[b := slot]
    {
      buf[b] := buf[b].(slot := slot);
      slots := slots[b := slot];
      Relink(old(buf[..]), buf[..], lru);
    }

    // binit: all buffers unbound (static storage is zero), threaded one by one.
    constructor (d: Disk)
      ensures disk == d && fresh(buf) && Valid()
      ensures slotOf == map[] && forall s :: 0 <= s < NBUF ==> slots[s].refcnt == 0
    {
      disk := d;
      var zero: Block := seq(WORDS, i => 0);
      var empty := Slot(false, false, 0, false, 0, zero);
      buf := new Buf[NBUF + 1](_ => Buf(empty, HEAD, HEAD));
      slots, lru, slotOf := seq(NBUF, i => empty), [], map[];
      new;
      for s := 0 to NBUF
        invariant fresh(buf) && Linked(buf[..], lru)
        invariant |lru| == s && forall t :: 0 <= t < NBUF ==> (t in lru <==> t < s)
        invariant forall t :: 0 <= t <= NBUF ==> buf[t].slot == empty
        modifies this`lru, buf
      {
        PushFront(s);
      }
    }

    // The first loop of bget: is the block already cached?
    method Lookup(bn: nat) returns (b: nat)
      requires Valid()
      ensures b == (if bn in slotOf then slotOf[bn] else HEAD)
    {
      ghost var r, i := Ring(lru), 0;
      assert LinkAt(buf[..], r, 0);
      b := buf[HEAD].next;
      while b != HEAD && !(buf[b].slot.bound && buf[b].slot.blockno == bn)
        invariant 0 <= i <= |lru| && b == r[i + 1]
        invariant forall j :: 0 <= j < i ==> !(slots[lru[j]].bound && slots[lru[j]].blockno == bn)
        decreases |lru| - i
      {
        assert LinkAt(buf[..], r, i + 1);
        b := buf[b].next;
        i := i + 1;
      }
      assert bn in slotOf ==> slotOf[bn] in lru;
      assert b != HEAD ==> SlotOk(slots, b, slotOf, disk.image);
    }

    // The second loop of bget: the least recently used buffer without references.
    method FindVictim() returns (b: nat)
      requires Listed()
      ensures b == HEAD ==> forall s :: 0 <= s < NBUF ==> slots[s].refcnt > 0
      ensures b != HEAD ==> b < NBUF && exists i: nat :: Victim(slots, lru, i) && lru[i] == b
    {
      ghost var r, i := Ring(lru), |lru|;
      assert LinkAt(buf[..], r, i);
      b := buf[HEAD].prev;
      while b != HEAD && buf[b].slot.refcnt != 0
        invariant 0 <= i <= |lru| && b == r[i]
        invariant forall j :: i <= j < |lru| ==> slots[lru[j]].refcnt > 0
        decreases i
      {
        assert LinkAt(buf[..], r, i - 1);
        b := buf[b].prev;
        i := i - 1;
      }
      if b == HEAD {
        forall s | 0 <= s < NBUF ensures slots[s].refcnt > 0 {
          assert s in lru;
        }
      } else {
        assert Victim(slots, lru, i - 1) && lru[i - 1] == b;
      }
    }

    method Bget(bn: nat) returns (r: Option<nat>)
      requires Valid() && bn < |disk.image|
      requires bn in slotOf ==> !slots[slotOf[bn]].locked
      modifies this`slotOf, this`slots, buf
      ensures Valid()
      ensures r.None? <==> old(Full(bn))
      ensures r.None? ==> slots == old(slots) && slotOf == old(slotOf)
      ensures r.Some? ==> r.value < NBUF && bn in slotOf && slotOf[bn] == r.value
      ensures r.Some? && bn in old(slotOf) ==>
        && slotOf == old(slotOf)
        && slots == old(slots)[r.value := Hit(old(slots)[r.value])]
      ensures r.Some? && bn !in old(slotOf) ==>
        && slotOf == Rebound(old(slots), old(slotOf), r.value, bn)
        && slots == old(slots)[r.value := Fresh(old(slots)[r.value], bn)]
        && exists i: nat :: Victim(old(slots), lru, i) && lru[i] == r.value
      ensures SameReads(old(slots), old(slotOf), disk.image, slots, slotOf)
    {
      var b := Lookup(bn);
      if b != HEAD {
        Recounted(slots, slotOf, disk.image, b, slots[b].refcnt + 1, true);
        Set(b, Hit(buf[b].slot));
        return Some(b);
      }
      b := FindVictim();
      if b != HEAD {
        Recycled(slots, slotOf, disk.image, b, bn);
        slotOf := Rebound(slots, slotOf, b, bn);
        Set(b, Fresh(buf[b].slot, bn));
        return Some(b);
      }
      return None;
    }

    method Bread(bn: nat) returns (r: Option<nat>)
      requires Valid() && bn < |disk.image|
      requires bn in slotOf ==> !slots[slotOf[bn]].locked
      modifies this`slotOf, this`slots, buf
      ensures Valid()
      ensures r.None? <==> old(Full(bn))
      ensures r.None? ==> slots == old(slots) && slotOf == old(slotOf)
      ensures r.Some? ==>
        var b := r.value;
        && b < NBUF && bn in slotOf && slotOf[bn] == b
        && slots == old(slots)[b := slots[b]]
        && slots[b].valid && slots[b].locked && slots[b].data == old(Read(bn))
        && slots[b].refcnt == 1 + (if bn in old(slotOf) then old(slots)[b].refcnt else 0)
        && (if bn in old(slotOf) then slotOf == old(slotOf) else
              old(slots)[b].refcnt == 0 && slotOf == Rebound(old(slots), old(slotOf), b, bn))
      ensures SameReads(old(slots), old(slotOf), disk.image, slots, slotOf)
    {
      r := Bget(bn);
      if r.Some? {
        var b := r.value;
        if !buf[b].slot.valid {
          Loaded(slots, slotOf, disk.image, b);
          Set(b, buf[b].slot.(data := disk.image[bn], valid := true));
        }
      }
    }

    // The caller changes b->data while it holds the buffer.
    method Modify(b: nat, data: Block)
      requires Valid() && b < NBUF && slots[b].locked && slots[b].valid
      modifies this`slots, buf
      ensures Valid() && slots == old(slots)[b := old(slots)[b].(data := data)]
      ensures forall x: nat :: x < |disk.image| ==>
                Read(x) == if x == slots[b].blockno then data else old(Read(x))
    {
      Changed(slots, slotOf, disk.image, b, data);
      Set(b, buf[b].slot.(data := data));
    }

    method Bwrite(b: nat)
      requires Valid() && b < NBUF && slots[b].locked && slots[b].valid
      modifies disk
      ensures Valid() && slots[b].blockno < old(|disk.image|)
      ensures disk.image == old(disk.image)[slots[b].blockno := slots[b].data]
      ensures disk.trace == old(disk.trace) + [disk.image]
      ensures forall x: nat :: x < |disk.image| ==> Read(x) == old(Read(x))
    {
      Flushed(slots, slotOf, disk.image, b);
      disk.Write(buf[b].slot.blockno, buf[b].slot.data);
    }

    // The relinking in brelse.
    method ToFront(b: nat)
      requires Listed() && b < NBUF
      modifies this`lru, buf
      ensures Listed() && b in old(lru) && lru == MoveToFront(old(lru), b)
    {
      assert b in lru;
      ghost var i :| 0 <= i < |lru| && lru[i] == b;
      Unlink(b, i);
      assert lru == Without(old(lru), b);
      PushFront(b);
      forall s | 0 <= s < NBUF ensures s in lru {
        assert s in old(lru);
      }
    }

    // A buffer whose last reference goes must match the disk: callers pin or write it first.
    method Brelse(b: nat)
      requires Valid() && b < NBUF && slots[b].locked && slots[b].refcnt >= 1
      requires slots[b].refcnt == 1 && slots[b].valid ==> Clean(slots[b], disk.image)
      modifies this`lru, this`slots, buf
      ensures Valid()
      ensures slots == old(slots)[b := old(slots)[b].(refcnt := old(slots)[b].refcnt - 1, locked := false)]
      ensures old(slots)[b].refcnt > 1 ==> lru == old(lru)
      ensures old(slots)[b].refcnt == 1 ==> b in old(lru) && lru == MoveToFront(old(lru), b)
      ensures SameReads(old(slots), slotOf, disk.image, slots, slotOf)
    {
      assert SlotOk(slots, b, slotOf, disk.image);
      Recounted(slots, slotOf, disk.image, b, slots[b].refcnt - 1, false);
      Set(b, buf[b].slot.(locked := false));
      Set(b, buf[b].slot.(refcnt := buf[b].slot.refcnt - 1));
      assert slots == old(slots)[b := old(slots)[b].(refcnt := old(slots)[b].refcnt - 1, locked := false)];
      if buf[b].slot.refcnt == 0 {
        ToFront(b);
      }
    }

    method Bpin(b: nat)
      requires Valid() && b < NBUF && slots[b].bound
      modifies this`slots, buf
      ensures Valid() && slots == old(slots)[b := old(slots)[b].(refcnt := old(slots)[b].refcnt + 1)]
      ensures SameReads(old(slots), slotOf, disk.image, slots, slotOf)
    {
      Recounted(slots, slotOf, disk.image, b, slots[b].refcnt + 1, slots[b].locked);
      Set(b, buf[b].slot.(refcnt := buf[b].slot.refcnt + 1));
    }

    method Bunpin(b: nat)
      requires Valid() && b < NBUF && slots[b].bound && slots[b].refcnt > 0
      requires slots[b].refcnt == 1 ==>
                 !slots[b].locked && (slots[b].valid ==> Clean(slots[b], disk.image))
      modifies this`slots, buf
      ensures Valid() && slots == old(slots)[b := old(slots)[b].(refcnt := old(slots)[b].refcnt - 1)]
      ensures SameReads(old(slots), slotOf, disk.image, slots, slotOf)
    {
      Recounted(slots, slotOf, disk.image, b, slots[b].refcnt - 1, slots[b].locked);
      Set(b, buf[b].slot.(refcnt := buf[b].slot.refcnt - 1));
    }
  }
}
