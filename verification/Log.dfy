/** log.c as one kernel thread runs it: `log_write`, commit and recovery over the
    buffer cache, with every block write recorded in `Disk.trace`.  The waits in
    `begin_op` and the interleavings of several processes are in `LogProtocol`. */
module Log {
  import opened Common
  import opened LogDisk
  import opened Bio

  /** The cache as the log code sees it: the buffers in `held` are locked by the caller;
      each block in `pins` carries one more reference, is cached, and may differ from the
      disk; every other block is unreferenced and clean. */
  ghost predicate Holding(slots: seq<Slot>, slotOf: map<nat, nat>, image: DiskImage,
                          pins: set<int>, held: set<nat>) {
    && Coherent(slots, slotOf, image)
    && (forall s: nat :: s < NBUF ==> SlotHeld(slots, s, held, pins, image))
    && (forall s :: s in held ==> s < NBUF && slots[s].bound)
    && (forall p :: p in pins ==> 0 <= p < |image| && p in slotOf && slots[slotOf[p]].valid)
  }

  ghost predicate SlotHeld(slots: seq<Slot>, s: nat, held: set<nat>, pins: set<int>, image: DiskImage)
    requires s < |slots|
  {
    var b := slots[s];
    && b.locked == (s in held)
    && b.refcnt == (if s in held then 1 else 0) + (if b.bound && b.blockno in pins then 1 else 0)
    && (b.bound && b.valid && b.blockno !in pins && s !in held ==>
          b.blockno < |image| && b.data == image[b.blockno])
  }

  /** The blocks still pinned once the first `k` have been installed. */
  ghost function Pins(bl: seq<int>, k: nat): set<int> {
    set i | k <= i < |bl| :: bl[i]
  }

  lemma {:induction false} PinsBound(bl: seq<int>, k: nat)
    requires k <= |bl|
    ensures |Pins(bl, k)| <= |bl| - k
    decreases |bl| - k
  {
    if k < |bl| {
      PinsBound(bl, k + 1);
      assert Pins(bl, k) == Pins(bl, k + 1) + {bl[k]};
    } else {
      assert Pins(bl, k) == {};
    }
  }

  lemma PinsStep(bl: seq<int>, k: nat)
    requires k < |bl|
    ensures Pins(bl, k) == Pins(bl, k + 1) + {bl[k]}
    ensures Distinct(bl) ==> Pins(bl, k + 1) == Pins(bl, k) - {bl[k]}
  {
  }

  ghost function BlocksIn(slots: seq<Slot>, some: set<nat>): set<int>
    requires forall s :: s in some ==> s < |slots|
  {
    set s | s in some :: slots[s].blockno
  }

  /** Bound buffers hold distinct blocks. */
  lemma {:induction false} BlocksInSize(slots: seq<Slot>, slotOf: map<nat, nat>, image: DiskImage, some: set<nat>)
    requires Coherent(slots, slotOf, image)
    requires forall s :: s in some ==> s < NBUF && slots[s].bound
    ensures |BlocksIn(slots, some)| == |some|
    decreases |some|
  {
    if some != {} {
      var t :| t in some;
      BlocksInSize(slots, slotOf, image, some - {t});
      assert BlocksIn(slots, some) == BlocksIn(slots, some - {t}) + {slots[t].blockno};
      forall s | s in some - {t} ensures slots[s].blockno != slots[t].blockno {
        assert SlotOk(slots, s, slotOf, image) && SlotOk(slots, t, slotOf, image);
      }
    } else {
      assert BlocksIn(slots, some) == {};
    }
  }

  ghost function SlotsBelow(k: nat): (all: set<nat>)
    ensures |all| == k
    ensures forall s: nat :: s in all <==> s < k
  {
    if k == 0 then {} else SlotsBelow(k - 1) + {k - 1}
  }

  lemma SubsetSize(a: set<int>, b: set<int>)
    requires a <= b
    ensures |a| <= |b|
  {
    assert b == a + (b - a);
  }

  /** Fewer pins and held buffers than buffers: `bget` finds one to recycle. */
  lemma SpareBuffer(slots: seq<Slot>, slotOf: map<nat, nat>, image: DiskImage, pins: set<int>, held: set<nat>)
    requires Holding(slots, slotOf, image, pins, held) && |pins| + |held| < NBUF
    ensures exists s :: 0 <= s < |slots| && slots[s].refcnt == 0
  {
    if forall s :: 0 <= s < NBUF ==> slots[s].refcnt > 0 {
      var all := SlotsBelow(NBUF);
      forall s | s in all ensures slots[s].bound && slots[s].blockno in pins + BlocksIn(slots, held) {
        assert SlotHeld(slots, s, held, pins, image);
      }
      BlocksInSize(slots, slotOf, image, all);
      BlocksInSize(slots, slotOf, image, held);
      SubsetSize(BlocksIn(slots, all), pins + BlocksIn(slots, held));
    }
  }

  /** A block that is neither pinned nor held reads as it is on the disk. */
  lemma CleanRead(slots: seq<Slot>, slotOf: map<nat, nat>, image: DiskImage,
                  pins: set<int>, held: set<nat>, bn: nat)
    requires Holding(slots, slotOf, image, pins, held) && bn < |image| && bn !in pins
    requires bn in slotOf ==> slotOf[bn] !in held
    ensures ReadOf(slots, slotOf, image, bn) == image[bn]
  {
    if bn in slotOf {
      assert SlotHeld(slots, slotOf[bn], held, pins, image);
    }
  }

  /** Taking one more buffer, after `bread` of a block nobody holds. */
  lemma Got(slots: seq<Slot>, slotOf: map<nat, nat>, image: DiskImage, pins: set<int>, held: set<nat>,
            slots': seq<Slot>, slotOf': map<nat, nat>, bn: nat, b: nat)
    requires Holding(slots, slotOf, image, pins, held) && Coherent(slots', slotOf', image)
    requires bn < |image| && b < NBUF && bn in slotOf' && slotOf'[bn] == b
    requires bn in slotOf ==> slotOf[bn] !in held && slotOf' == slotOf
    requires bn !in slotOf ==> slots[b].refcnt == 0 && slotOf' == Rebound(slots, slotOf, b, bn)
    requires slots' == slots[b := slots'[b]]
    requires slots'[b].valid && slots'[b].locked
    requires slots'[b].refcnt == 1 + (if bn in slotOf then slots[b].refcnt else 0)
    ensures b !in held && Holding(slots', slotOf', image, pins, held + {b})
  {
    assert SlotHeld(slots, b, held, pins, image);
    forall s: nat | s < NBUF ensures SlotHeld(slots', s, held + {b}, pins, image) {
      assert SlotHeld(slots, s, held, pins, image);
    }
    forall p | p in pins ensures p in slotOf' && slots'[slotOf'[p]].valid {
      assert SlotHeld(slots, slotOf[p], held, pins, image);
    }
  }

  lemma PutBack(slots: seq<Slot>, slotOf: map<nat, nat>, image: DiskImage, pins: set<int>, held: set<nat>,
                slots': seq<Slot>, b: nat)
    requires Holding(slots, slotOf, image, pins, held) && Coherent(slots', slotOf, image) && b in held
    requires slots[b].blockno in pins || !slots[b].valid || Clean(slots[b], image)
    requires slots[b].refcnt >= 1
    requires slots' == slots[b := slots[b].(refcnt := slots[b].refcnt - 1, locked := false)]
    ensures Holding(slots', slotOf, image, pins, held - {b})
  {
    assert SlotOk(slots, b, slotOf, image);
    forall s: nat | s < NBUF ensures SlotHeld(slots', s, held - {b}, pins, image) {
      assert SlotHeld(slots, s, held, pins, image);
    }
  }

  /** A held buffer gets new contents and the device gets them too. */
  lemma Written(slots: seq<Slot>, slotOf: map<nat, nat>, image: DiskImage, pins: set<int>, held: set<nat>,
                b: nat, data: Block, slots': seq<Slot>, image': DiskImage)
    requires Holding(slots, slotOf, image, pins, held) && b in held && slots[b].blockno < |image|
    requires slots' == slots[b := slots[b].(data := data)] && image' == image[slots[b].blockno := data]
    requires Coherent(slots', slotOf, image')
    ensures Holding(slots', slotOf, image', pins, held)
  {
    forall s: nat | s < NBUF ensures SlotHeld(slots', s, held, pins, image') {
      assert SlotHeld(slots, s, held, pins, image);
      assert SlotOk(slots, s, slotOf, image) && SlotOk(slots, b, slotOf, image);
    }
  }

  /** The pin of the block in a held buffer is undone. */
  lemma Unpinned(slots: seq<Slot>, slotOf: map<nat, nat>, image: DiskImage, pins: set<int>, held: set<nat>,
                 slots': seq<Slot>, b: nat)
    requires Holding(slots, slotOf, image, pins, held) && Coherent(slots', slotOf, image) && b in held
    requires slots[b].blockno in pins && slots[b].refcnt >= 1
    requires slots' == slots[b := slots[b].(refcnt := slots[b].refcnt - 1)]
    ensures Holding(slots', slotOf, image, pins - {slots[b].blockno}, held)
  {
    var left := pins - {slots[b].blockno};
    forall s: nat | s < NBUF ensures SlotHeld(slots', s, held, left, image) {
      assert SlotHeld(slots, s, held, pins, image);
      assert SlotOk(slots, s, slotOf, image) && SlotOk(slots, b, slotOf, image);
    }
  }

  /** A held buffer may differ from the disk. */
  lemma Dirtied(slots: seq<Slot>, slotOf: map<nat, nat>, image: DiskImage, pins: set<int>, held: set<nat>,
                b: nat, data: Block)
    requires Holding(slots, slotOf, image, pins, held) && b in held
    requires Coherent(slots[b := slots[b].(data := data)], slotOf, image)
    ensures Holding(slots[b := slots[b].(data := data)], slotOf, image, pins, held)
  {
    var slots' := slots[b := slots[b].(data := data)];
    forall s: nat | s < NBUF ensures SlotHeld(slots', s, held, pins, image) {
      assert SlotHeld(slots, s, held, pins, image);
      assert SlotOk(slots, s, slotOf, image) && SlotOk(slots, b, slotOf, image);
    }
  }

  /** One more reference pins the block of a held, valid buffer. */
  lemma Pinned(slots: seq<Slot>, slotOf: map<nat, nat>, image: DiskImage, pins: set<int>, held: set<nat>, b: nat)
    requires Holding(slots, slotOf, image, pins, held) && b in held && slots[b].valid
    requires slots[b].blockno !in pins
    requires Coherent(slots[b := slots[b].(refcnt := slots[b].refcnt + 1)], slotOf, image)
    ensures Holding(slots[b := slots[b].(refcnt := slots[b].refcnt + 1)], slotOf, image,
                    pins + {slots[b].blockno}, held)
  {
    var slots', more := slots[b := slots[b].(refcnt := slots[b].refcnt + 1)], pins + {slots[b].blockno};
    assert SlotOk(slots, b, slotOf, image);
    forall s: nat | s < NBUF ensures SlotHeld(slots', s, held, more, image) {
      assert SlotHeld(slots, s, held, pins, image);
      assert SlotOk(slots, s, slotOf, image);
    }
  }

  lemma PinsAppend(bl: seq<int>, bn: int)
    ensures bn in Pins(bl, 0) <==> bn in bl
    ensures Pins(bl + [bn], 0) == Pins(bl, 0) + {bn}
  {
    var more := bl + [bn];
    forall x | x in Pins(bl, 0) + {bn} ensures x in Pins(more, 0) {
      if x in Pins(bl, 0) {
        var i :| 0 <= i < |bl| && bl[i] == x;
        assert more[i] == x;
      } else {
        assert more[|bl|] == x;
      }
    }
  }

  lemma AbsorbKeeps(l: Layout, d: DiskImage, bl: seq<int>, bn: int)
    requires GoodList(l, d, bl) && Distinct(bl) && l.Home(d, bn) && |bl| < l.Capacity()
    ensures GoodList(l, d, Absorb(bl, bn)) && Distinct(Absorb(bl, bn))
  {
  }

  lemma LoggedIsPinned(bl: seq<int>, bn: int)
    ensures bn in Pins(Absorb(bl, bn), 0)
  {
    var i :| 0 <= i < |Absorb(bl, bn)| && Absorb(bl, bn)[i] == bn;
  }

  /** Log absorption: a block that is logged already is not logged again. */
  function Absorb(bl: seq<int>, bn: int): seq<int> {
    if bn in bl then bl else bl + [bn]
  }

  /** The blocks that all outstanding operations together may still log. */
  ghost function Sum(s: seq<nat>): nat {
    if s == [] then 0 else Sum(s[..|s| - 1]) + s[|s| - 1]
  }

  lemma SumAppend(s: seq<nat>, x: nat)
    ensures Sum(s + [x]) == Sum(s) + x
  {
    assert (s + [x])[..|s|] == s;
  }

  lemma {:induction false} SumUpdate(s: seq<nat>, k: nat, x: nat)
    requires k < |s|
    ensures Sum(s[k := x]) + s[k] == Sum(s) + x
  {
    var n := |s| - 1;
    if k == n {
      assert s[k := x][..n] == s[..n];
    } else {
      assert s[k := x][..n] == s[..n][k := x];
      SumUpdate(s[..n], k, x);
    }
  }

  lemma {:induction false} SumRemove(s: seq<nat>, k: nat)
    requires k < |s|
    ensures Sum(s[..k] + s[k + 1..]) + s[k] == Sum(s)
  {
    var n := |s| - 1;
    if k == n {
      assert s[..k] + s[k + 1..] == s[..n];
    } else {
      assert (s[..k] + s[k + 1..])[..n - 1] == s[..n][..k] + s[..n][k + 1..];
      SumRemove(s[..n], k);
    }
  }

  lemma SumHas(s: seq<nat>, k: nat)
    requires k < |s|
    ensures Sum(s) >= s[k]
  {
    SumRemove(s, k);
  }

  /** What an operation may log: two blocks less than begin_op reserves. */
  const OPBLOCKS: nat := MAXOPBLOCKS - 2

  class Log {
    const cache: BufferCache
    const layout: Layout
    const block: array<int>   // lh.block
    var n: nat                // lh.n
    var outstanding: int
    var committing: bool
    ghost var view: DiskImage // the block array that the users of the log see
    ghost var left: seq<nat>  // for each outstanding operation, how many blocks it may still log

    // Between operations: nobody holds a buffer, the log's blocks are pinned, and the
    // header on disk says that nothing is committed.
    ghost predicate Valid()
      reads this, block, cache, cache.buf, cache.disk
    {
      && block.Length == LOGSIZE && layout.size <= LOGSIZE && n <= LOGSIZE
      && GoodList(layout, cache.disk.image, block[..n]) && Distinct(block[..n])
      && cache.disk.image[layout.start][0] == 0
      && Holds(Pins(block[..n], 0), {}) && Shows(view)
      && outstanding >= 0
    }

    // What begin_op's test keeps: room for everything that was promised, and two blocks more
    // for each outstanding operation.
    ghost predicate Reserved()
      reads this
    {
      && |left| == outstanding && (forall k :: 0 <= k < |left| ==> left[k] <= OPBLOCKS)
      && n + Sum(left) + 2 * outstanding <= LOGSIZE
    }

    // initlog on a machine that has just come up: the cache is empty.
    constructor (c: BufferCache, l: Layout)
      requires c.Listed() && Holding(c.slots, c.slotOf, c.disk.image, {}, {})
      requires l.size <= LOGSIZE && GoodHead(l, c.disk.image)
      modifies c, c.buf, c.disk
      ensures cache == c && layout == l && Valid() && Reserved() && n == 0 && outstanding == 0 && !committing
      ensures c.disk.image == view == Recovered(l, old(c.disk.image))
      ensures c.disk.trace == old(c.disk.trace) + RecoveryTrace(l, old(c.disk.image))
      ensures RecoverySafe(l, RecoveryTrace(l, old(c.disk.image)), old(c.disk.image))
    {
      cache, layout, block := c, l, new int[LOGSIZE];
      n, outstanding, committing := 0, 0, false;
      view, left := [], [];
      new;
      RecoverFromLog(cache.disk.image);
      view := cache.disk.image;
      assert Pins(block[..n], 0) == {};
      forall x: nat | x < |view| ensures cache.Read(x) == view[x] {
        CleanRead(cache.slots, cache.slotOf, view, {}, {}, x);
      }
    }

    // Where write_log puts the tail-th block of the transaction.
    function LogBlock(tail: nat): nat {
      layout.start + tail + 1
    }

    ghost predicate Holds(pins: set<int>, held: set<nat>)
      reads cache, cache.buf, cache.disk
    {
      && cache.Listed()
      && Holding(cache.slots, cache.slotOf, cache.disk.image, pins, held)
    }

    // bread, with the room for it that the log's own pins leave.
    method Get(bn: nat, ghost pins: set<int>, ghost held: set<nat>) returns (b: nat)
      requires Holds(pins, held) && bn < |cache.disk.image| && (bn in pins || |pins| + |held| < NBUF)
      requires bn in cache.slotOf ==> cache.slotOf[bn] !in held
      modifies cache`slotOf, cache`slots, cache.buf
      ensures b < NBUF && b !in held && Holds(pins, held + {b})
      ensures bn in cache.slotOf && cache.slotOf[bn] == b && cache.slots[b].valid && cache.slots[b].blockno == bn
      ensures cache.slots[b].data == old(cache.Read(bn))
      ensures bn !in pins ==> Clean(cache.slots[b], cache.disk.image)
      ensures cache.slots == old(cache.slots)[b := cache.slots[b]]
      ensures SameReads(old(cache.slots), old(cache.slotOf), cache.disk.image, cache.slots, cache.slotOf)
    {
      if bn !in pins {
        CleanRead(cache.slots, cache.slotOf, cache.disk.image, pins, held, bn);
      }
      if |pins| + |held| < NBUF {
        SpareBuffer(cache.slots, cache.slotOf, cache.disk.image, pins, held);
      }
      assert bn in cache.slotOf ==> SlotHeld(cache.slots, cache.slotOf[bn], held, pins, cache.disk.image);
      var r := cache.Bread(bn);
      b := r.value;
      Got(old(cache.slots), old(cache.slotOf), cache.disk.image, pins, held, cache.slots, cache.slotOf, bn, b);
    }

    // brelse
    method Put(b: nat, ghost pins: set<int>, ghost held: set<nat>)
      requires Holds(pins, held) && b in held
      requires cache.slots[b].blockno in pins || Clean(cache.slots[b], cache.disk.image)
      modifies cache`lru, cache`slots, cache.buf
      ensures Holds(pins, held - {b})
      ensures cache.slots == old(cache.slots)[b := cache.slots[b]]
      ensures SameReads(old(cache.slots), cache.slotOf, cache.disk.image, cache.slots, cache.slotOf)
    {
      assert SlotHeld(cache.slots, b, held, pins, cache.disk.image);
      cache.Brelse(b);
      PutBack(old(cache.slots), cache.slotOf, cache.disk.image, pins, held, cache.slots, b);
    }

    // memmove into a held buffer, then bwrite.
    method Fill(b: nat, data: Block, ghost pins: set<int>, ghost held: set<nat>)
      requires Holds(pins, held) && b in held && cache.slots[b].valid && cache.slots[b].blockno < |cache.disk.image|
      modifies cache`slots, cache.buf, cache.disk
      ensures Holds(pins, held)
      ensures cache.slots == old(cache.slots)[b := old(cache.slots)[b].(data := data)]
      ensures cache.disk.image == old(cache.disk.image)[old(cache.slots)[b].blockno := data]
      ensures cache.disk.trace == old(cache.disk.trace) + [cache.disk.image]
      ensures forall x: nat :: x < |cache.disk.image| ==>
                cache.Read(x) == if x == old(cache.slots)[b].blockno then data else old(cache.Read(x))
    {
      assert SlotHeld(cache.slots, b, held, pins, cache.disk.image);
      cache.Modify(b, data);
      cache.Bwrite(b);
      Written(old(cache.slots), cache.slotOf, old(cache.disk.image), pins, held, b, data,
              cache.slots, cache.disk.image);
    }

    // bunpin
    method Unpin(b: nat, ghost pins: set<int>, ghost held: set<nat>)
      requires Holds(pins, held) && b in held && cache.slots[b].blockno in pins
      modifies cache`slots, cache.buf
      ensures Holds(pins - {old(cache.slots)[b].blockno}, held)
      ensures cache.slots == old(cache.slots)[b := old(cache.slots)[b].(refcnt := cache.slots[b].refcnt)]
      ensures SameReads(old(cache.slots), cache.slotOf, cache.disk.image, cache.slots, cache.slotOf)
    {
      assert SlotHeld(cache.slots, b, held, pins, cache.disk.image);
      cache.Bunpin(b);
      Unpinned(old(cache.slots), cache.slotOf, cache.disk.image, pins, held, cache.slots, b);
    }

    // The two bread calls that begin a copy.
    method GetBoth(bn: nat, bn': nat, ghost pins: set<int>) returns (b: nat, c: nat)
      requires Holds(pins, {}) && bn < |cache.disk.image| && bn' < |cache.disk.image| && bn != bn'
      requires |pins| < (if bn' in pins then NBUF else NBUF - 1)
      modifies cache`slotOf, cache`slots, cache.buf
      ensures b < NBUF && c < NBUF && b != c && Holds(pins, {b, c})
      ensures var s := cache.slots[b]; s.valid && s.blockno == bn && s.data == old(cache.Read(bn))
      ensures var s := cache.slots[c]; s.valid && s.blockno == bn' && s.data == old(cache.Read(bn'))
      ensures bn !in pins ==> Clean(cache.slots[b], cache.disk.image)
      ensures bn' !in pins ==> Clean(cache.slots[c], cache.disk.image)
      ensures SameReads(old(cache.slots), old(cache.slotOf), cache.disk.image, cache.slots, cache.slotOf)
    {
      b := Get(bn, pins, {});
      assert {} + {b} == {b} && |{b}| == 1;
      ghost var s := cache.slots;
      assert bn' in cache.slotOf ==> cache.slotOf[bn'] !in {b};
      c := Get(bn', pins, {b});
      assert {b} + {c} == {b, c} && cache.slots[b] == s[b];
    }

    // The two brelse calls that end a copy.
    method PutBoth(b: nat, c: nat, ghost pins: set<int>)
      requires Holds(pins, {b, c}) && b != c
      requires cache.slots[b].blockno in pins || Clean(cache.slots[b], cache.disk.image)
      requires cache.slots[c].blockno in pins || Clean(cache.slots[c], cache.disk.image)
      modifies cache`lru, cache`slots, cache.buf
      ensures Holds(pins, {})
      ensures SameReads(old(cache.slots), cache.slotOf, cache.disk.image, cache.slots, cache.slotOf)
    {
      Put(b, pins, {b, c});
      assert {b, c} - {b} == {c};
      Put(c, pins, {c});
      assert {c} - {c} == {};
    }

    // memmove between two held buffers, bwrite of the destination (block bn), the pin of
    // the destination undone if asked, and both buffers released.
    method Copy(src: nat, dst: nat, unpin: bool, ghost bn: nat, ghost data: Block,
                ghost pins: set<int>, ghost left: set<int>)
      requires Holds(pins, {src, dst}) && src != dst
      requires cache.slots[dst].valid && cache.slots[dst].blockno == bn < |cache.disk.image|
      requires cache.slots[src].data == data && cache.slots[src].blockno != bn
      requires cache.slots[src].blockno in pins || Clean(cache.slots[src], cache.disk.image)
      requires unpin ==> bn in pins
      requires left == if unpin then pins - {bn} else pins
      modifies cache`lru, cache`slots, cache.buf, cache.disk
      ensures Holds(left, {})
      ensures cache.disk.image == old(cache.disk.image)[bn := data]
      ensures cache.disk.trace == old(cache.disk.trace) + [cache.disk.image]
      ensures forall x: nat :: x < |cache.disk.image| ==>
                cache.Read(x) == if x == bn then data else old(cache.Read(x))
    {
      Fill(dst, cache.buf[src].slot.data, pins, {src, dst});
      if unpin {
        Unpin(dst, pins, {src, dst});
      }
      PutBoth(src, dst, left);
    }

    // One round of the loop in write_log: copy a pinned block from the cache to the log.
    method WriteLogBlock(tail: nat, ghost pins: set<int>, ghost data: Block)
      requires Holds(pins, {}) && tail < n <= block.Length && |pins| < NBUF
      requires layout.Fits(cache.disk.image) && tail < layout.size - 1
      requires layout.Home(cache.disk.image, block[tail]) && block[tail] in pins
      requires cache.Read(block[tail]) == data
      modifies cache`slotOf, cache`lru, cache`slots, cache.buf, cache.disk
      ensures Holds(pins, {})
      ensures cache.disk.image == old(cache.disk.image)[LogBlock(tail) := data]
      ensures cache.disk.trace == old(cache.disk.trace) + [cache.disk.image]
      ensures forall x: nat :: x < |cache.disk.image| && x != LogBlock(tail) ==>
                cache.Read(x) == old(cache.Read(x))
    {
      var to, from := GetBoth(LogBlock(tail), block[tail], pins);
      assert {to, from} == {from, to};
      Copy(from, to, false, LogBlock(tail), data, pins, pins);
    }

    // One round of the loop in install_trans: copy a log block to its home.
    method InstallBlock(tail: nat, recovering: bool, ghost pins: set<int>, ghost data: Block)
      requires Holds(pins, {}) && tail < n <= block.Length && |pins| < NBUF
      requires layout.Fits(cache.disk.image) && tail < layout.size - 1
      requires layout.Home(cache.disk.image, block[tail])
      requires LogBlock(tail) !in pins && cache.disk.image[LogBlock(tail)] == data
      requires if recovering then pins == {} else block[tail] in pins
      modifies cache`slotOf, cache`lru, cache`slots, cache.buf, cache.disk
      ensures Holds(pins - {block[tail]}, {})
      ensures cache.disk.image == old(cache.disk.image)[block[tail] := data]
      ensures cache.disk.trace == old(cache.disk.trace) + [cache.disk.image]
      ensures forall x: nat :: x < |cache.disk.image| ==>
                cache.Read(x) == if x == block[tail] then data else old(cache.Read(x))
    {
      var lbuf, dbuf := GetBoth(LogBlock(tail), block[tail], pins);
      Copy(lbuf, dbuf, !recovering, block[tail], data, pins, pins - {block[tail]});
    }

    // Readers see the blocks of view: a plain block array that the cache and log refine.
    ghost predicate Shows(view: DiskImage)
      reads cache, cache.disk
    {
      && Coherent(cache.slots, cache.slotOf, cache.disk.image)
      && |view| == |cache.disk.image|
      && forall x: nat :: layout.Home(view, x) ==> cache.Read(x) == view[x]
    }

    // What write_log has done to disk and cache when it reaches position tail.
    ghost predicate LogPrefix(tail: nat, bl: seq<int>, vals: seq<Block>, d: DiskImage, t: seq<DiskImage>)
      requires GoodList(layout, d, bl) && |vals| == |bl| && tail <= |bl|
      reads this, cache, cache.buf, cache.disk
    {
      && Holds(Pins(bl, 0), {})
      && cache.disk.image == LogWritten(layout, d, vals, tail)
      && cache.disk.trace == t + LogTrace(layout, d, vals, tail)
    }

    method WriteLogStep(tail: nat, ghost bl: seq<int>, ghost view: DiskImage, ghost d: DiskImage,
                        ghost t: seq<DiskImage>)
      requires n <= block.Length && bl == block[..n] && tail < n < NBUF
      requires GoodList(layout, d, bl) && GoodList(layout, view, bl)
      requires LogPrefix(tail, bl, Pick(view, bl), d, t) && Shows(view)
      modifies cache`slotOf, cache`lru, cache`slots, cache.buf, cache.disk
      ensures LogPrefix(tail + 1, bl, Pick(view, bl), d, t) && Shows(view)
    {
      PinsBound(bl, 0);
      assert bl[tail] == block[tail] && layout.Home(view, bl[tail]);
      WriteLogBlock(tail, Pins(bl, 0), view[bl[tail]]);
    }

    method WriteLog(ghost bl: seq<int>, ghost view: DiskImage, ghost d: DiskImage)
      requires n <= block.Length && bl == block[..n] && n < NBUF
      requires GoodList(layout, d, bl) && GoodList(layout, view, bl)
      requires Holds(Pins(bl, 0), {}) && Shows(view) && d == cache.disk.image
      modifies cache`slotOf, cache`lru, cache`slots, cache.buf, cache.disk
      ensures LogPrefix(|bl|, bl, Pick(view, bl), d, old(cache.disk.trace)) && Shows(view)
    {
      ghost var t := cache.disk.trace;
      var tail := 0;
      while tail < n
        invariant 0 <= tail <= n && LogPrefix(tail, bl, Pick(view, bl), d, t) && Shows(view)
      {
        WriteLogStep(tail, bl, view, d, t);
        tail := tail + 1;
      }
    }

    // What install_trans has done to disk and cache when it reaches position tail.
    ghost predicate InstallPrefix(tail: nat, recovering: bool, bl: seq<int>, d: DiskImage, t: seq<DiskImage>)
      requires GoodList(layout, d, bl) && tail <= |bl|
      reads this, cache, cache.buf, cache.disk
    {
      && Holds(if recovering then {} else Pins(bl, tail), {})
      && cache.disk.image == Install(layout, d, bl, tail)
      && cache.disk.trace == t + InstallTrace(layout, d, bl, tail)
    }

    method InstallStep(tail: nat, recovering: bool, ghost bl: seq<int>, ghost d: DiskImage, ghost t: seq<DiskImage>)
      requires n <= block.Length && bl == block[..n] && tail < n < NBUF && GoodList(layout, d, bl)
      requires !recovering ==> Distinct(bl)
      requires InstallPrefix(tail, recovering, bl, d, t)
      modifies cache`slotOf, cache`lru, cache`slots, cache.buf, cache.disk
      ensures InstallPrefix(tail + 1, recovering, bl, d, t)
      ensures forall x: nat :: x < |d| ==>
                cache.Read(x) == if x == bl[tail] then d[LogBlock(tail)] else old(cache.Read(x))
    {
      ghost var e, data := cache.disk.image, d[LogBlock(tail)];
      assert bl[tail] == block[tail] && layout.Home(d, bl[tail]) && e[LogBlock(tail)] == data;
      ghost var pins := if recovering then {} else Pins(bl, tail);
      PinsBound(bl, tail);
      PinsStep(bl, tail);
      assert forall p :: p in Pins(bl, tail) ==> layout.Home(d, p);
      InstallBlock(tail, recovering, pins, data);
      assert pins - {bl[tail]} == if recovering then {} else Pins(bl, tail + 1);
      InstallNext(layout, d, bl, tail);
    }

    method InstallShown(tail: nat, recovering: bool, ghost bl: seq<int>, ghost view: DiskImage,
                        ghost d: DiskImage, ghost t: seq<DiskImage>)
      requires n <= block.Length && bl == block[..n] && tail < n < NBUF && GoodList(layout, d, bl)
      requires !recovering ==> Distinct(bl) && Shows(view) && layout.Home(view, bl[tail]) &&
                               d[LogBlock(tail)] == view[bl[tail]]
      requires InstallPrefix(tail, recovering, bl, d, t)
      modifies cache`slotOf, cache`lru, cache`slots, cache.buf, cache.disk
      ensures InstallPrefix(tail + 1, recovering, bl, d, t)
      ensures !recovering ==> Shows(view)
    {
      InstallStep(tail, recovering, bl, d, t);
    }

    method InstallTrans(recovering: bool, ghost bl: seq<int>, ghost view: DiskImage, ghost d: DiskImage)
      requires n <= block.Length && bl == block[..n] && n < NBUF && GoodList(layout, d, bl)
      requires !recovering ==> Distinct(bl) && GoodList(layout, view, bl) && Shows(view) &&
                               forall i: nat :: i < n ==> d[LogBlock(i)] == view[bl[i]]
      requires Holds(if recovering then {} else Pins(bl, 0), {}) && d == cache.disk.image
      modifies cache`slotOf, cache`lru, cache`slots, cache.buf, cache.disk
      ensures InstallPrefix(|bl|, recovering, bl, d, old(cache.disk.trace))
      ensures !recovering ==> Shows(view)
    {
      ghost var t := cache.disk.trace;
      var tail := 0;
      while tail < n
        invariant 0 <= tail <= n && InstallPrefix(tail, recovering, bl, d, t)
        invariant !recovering ==> Shows(view)
      {
        InstallShown(tail, recovering, bl, view, d, t);
        tail := tail + 1;
      }
    }

    method WriteHead(ghost pins: set<int>, ghost bl: seq<int>)
      requires n <= LOGSIZE == block.Length && bl == block[..n]
      requires Holds(pins, {}) && |pins| < NBUF && layout.Fits(cache.disk.image) && layout.start !in pins
      modifies cache`slotOf, cache`lru, cache`slots, cache.buf, cache.disk
      ensures Holds(pins, {})
      ensures var d := old(cache.disk.image);
              cache.disk.image == d[layout.start := EncodeHead(d[layout.start], bl)]
      ensures cache.disk.trace == old(cache.disk.trace) + [cache.disk.image]
      ensures forall x: nat :: x < |cache.disk.image| && x != layout.start ==> cache.Read(x) == old(cache.Read(x))
    {
      var b := Get(layout.start, pins, {});
      assert {} + {b} == {b};
      var was := cache.buf[b].slot.data;
      var hb: seq<int> := was;
      hb := hb[0 := n];
      var i := 0;
      while i < n
        invariant 0 <= i <= n && |hb| == WORDS
        invariant hb == [n] + block[..i] + was[1 + i..]
      {
        hb := hb[1 + i := block[i]];
        i := i + 1;
      }
      assert hb == EncodeHead(was, bl);
      Fill(b, hb, pins, {b});
      Put(b, pins, {b});
      assert {b} - {b} == {};
    }

    method ReadHead()
      requires block.Length == LOGSIZE && Holds({}, {}) && GoodHead(layout, cache.disk.image)
      modifies this`n, block, cache`slotOf, cache`lru, cache`slots, cache.buf
      ensures Holds({}, {}) && n <= LOGSIZE && block[..n] == Logged(layout, cache.disk.image)
    {
      var b := Get(layout.start, {}, {});
      assert {} + {b} == {b};
      var lh := cache.buf[b].slot.data;
      assert lh == cache.disk.image[layout.start];
      n := lh[0];
      var i := 0;
      while i < n
        invariant 0 <= i <= n <= LOGSIZE && n == lh[0] && block[..i] == lh[1..1 + i]
        modifies block
      {
        block[i] := lh[1 + i];
        i := i + 1;
      }
      Put(b, {}, {b});
      assert {b} - {b} == {};
    }

    // recover_from_log: the disk goes through exactly the recovery states of its image, and
    // wherever power fails meanwhile, the next recovery gives the same disk.
    method RecoverFromLog(ghost d: DiskImage)
      requires block.Length == LOGSIZE && layout.size <= LOGSIZE && Holds({}, {})
      requires d == cache.disk.image && GoodHead(layout, d)
      modifies this`n, block, cache`slotOf, cache`lru, cache`slots, cache.buf, cache.disk
      ensures Holds({}, {}) && n == 0
      ensures cache.disk.image == Recovered(layout, d)
      ensures cache.disk.trace == old(cache.disk.trace) + RecoveryTrace(layout, d)
      ensures RecoverySafe(layout, RecoveryTrace(layout, d), d)
    {
      ghost var bl := Logged(layout, d);
      RecoveryCrashSafe(layout, d);
      ReadHead();
      InstallTrans(true, bl, d, d);
      n := 0;
      assert block[..n] == [];
      WriteHead({}, []);
    }

    // The first half of commit: log blocks, then the header.
    method WriteTransaction(ghost bl: seq<int>, ghost d: DiskImage)
      requires n <= LOGSIZE == block.Length && bl == block[..n] && n < NBUF
      requires GoodList(layout, d, bl) && GoodList(layout, view, bl)
      requires Holds(Pins(bl, 0), {}) && Shows(view) && d == cache.disk.image
      modifies cache`slotOf, cache`lru, cache`slots, cache.buf, cache.disk
      ensures Holds(Pins(bl, 0), {}) && Shows(view)
      ensures cache.disk.image == HeadWritten(layout, d, bl, Pick(view, bl))
      ensures cache.disk.trace ==
              old(cache.disk.trace) + LogTrace(layout, d, Pick(view, bl), |bl|) + [cache.disk.image]
    {
      WriteLog(bl, view, d);
      PinsBound(bl, 0);
      WriteHead(Pins(bl, 0), bl);
    }

    // The log blocks of a committed disk hold the view of the blocks they stand for.
    lemma LogHolds(d: DiskImage, bl: seq<int>)
      requires GoodList(layout, d, bl) && GoodList(layout, view, bl)
      ensures forall i: nat :: i < |bl| ==> HeadWritten(layout, d, bl, Pick(view, bl))[LogBlock(i)] == view[bl[i]]
    {
      forall i: nat | i < |bl| ensures HeadWritten(layout, d, bl, Pick(view, bl))[LogBlock(i)] == view[bl[i]] {
        HeadWrittenAt(layout, d, bl, Pick(view, bl), i);
      }
    }

    // The second half: home blocks, then the cleared header.
    method InstallTransaction(ghost bl: seq<int>, ghost h: DiskImage)
      requires n <= LOGSIZE == block.Length && bl == block[..n] && n < NBUF
      requires GoodList(layout, h, bl) && GoodList(layout, view, bl) && Distinct(bl)
      requires Holds(Pins(bl, 0), {}) && Shows(view) && h == cache.disk.image
      requires forall i: nat :: i < n ==> h[LogBlock(i)] == view[bl[i]]
      modifies this`n, cache`slotOf, cache`lru, cache`slots, cache.buf, cache.disk
      ensures n == 0 && Holds({}, {}) && Shows(view)
      ensures cache.disk.image == Cleared(layout, Install(layout, h, bl, |bl|))
      ensures cache.disk.trace ==
              old(cache.disk.trace) + InstallTrace(layout, h, bl, |bl|) + [cache.disk.image]
    {
      InstallTrans(false, bl, view, h);
      assert Pins(bl, |bl|) == {};
      n := 0;
      WriteHead({}, []);
    }

    // commit when something is logged.
    method CommitLogged(ghost bl: seq<int>, ghost d: DiskImage)
      requires n <= LOGSIZE == block.Length && bl == block[..n] && n < NBUF
      requires Turns(layout, d, bl, view) && GoodList(layout, view, bl)
      requires Holds(Pins(bl, 0), {}) && Shows(view) && d == cache.disk.image
      modifies this`n, cache`slotOf, cache`lru, cache`slots, cache.buf, cache.disk
      ensures n == 0 && Holds({}, {}) && Shows(view)
      ensures cache.disk.image == CommitState(layout, d, bl, Pick(view, bl), 2 * |bl| + 2)
      ensures cache.disk.trace == old(cache.disk.trace) + CommitTrace(layout, d, bl, Pick(view, bl))
    {
      ghost var t := cache.disk.trace;
      WriteTransaction(bl, d);
      ghost var h := cache.disk.image;
      LogHolds(d, bl);
      InstallTransaction(bl, h);
      CommitTraceSplit(layout, d, bl, Pick(view, bl), t);
    }

    // commit: either nothing is logged, or the device receives exactly the writes of
    // CommitTrace and the home blocks become the view.
    method Commit()
      requires Valid()
      modifies this`n, cache`slotOf, cache`lru, cache`slots, cache.buf, cache.disk
      ensures Valid() && n == 0
      ensures var d, bl := old(cache.disk.image), old(block[..n]);
        && Turns(layout, d, bl, view) && SameHome(layout, view, cache.disk.image)
        && cache.disk.trace == old(cache.disk.trace) +
             if bl == [] then [] else CommitTrace(layout, d, bl, Pick(view, bl))
    {
      ghost var d, bl := cache.disk.image, block[..n];
      TurnsToView(d, bl);
      if n > 0 {
        CommitLogged(bl, d);
        CommitFinishes(layout, d, bl, view);
      }
      assert Pins(block[..n], 0) == {};
    }

    // Outside the logged blocks, disk and view agree already.
    lemma TurnsToView(d: DiskImage, bl: seq<int>)
      requires Valid() && d == cache.disk.image && bl == block[..n]
      ensures Turns(layout, d, bl, view)
    {
      forall x | layout.Home(d, x) && x !in bl ensures d[x] == view[x] {
        CleanRead(cache.slots, cache.slotOf, d, Pins(bl, 0), {}, x);
      }
    }

    // log_write; false stands for one of its two panics.
    method LogWrite(b: nat, ghost held: set<nat>) returns (ok: bool)
      requires n <= LOGSIZE == block.Length && Distinct(block[..n]) && layout.Fits(cache.disk.image)
      requires Holds(Pins(block[..n], 0), held) && b in held && cache.slots[b].valid
      modifies this`n, block, cache`slots, cache.buf
      ensures ok <==> old(n) < layout.Capacity() && outstanding >= 1
      ensures !ok ==> n == old(n) && block[..] == old(block[..]) && cache.slots == old(cache.slots)
      ensures ok ==>
        && n <= LOGSIZE && block[..n] == Absorb(old(block[..n]), old(cache.slots)[b].blockno)
        && Holds(Pins(block[..n], 0), held)
        && cache.slots == old(cache.slots)[b := old(cache.slots)[b].(refcnt := cache.slots[b].refcnt)]
        && SameReads(old(cache.slots), cache.slotOf, cache.disk.image, cache.slots, cache.slotOf)
    {
      ghost var bl, bn := block[..n], cache.slots[b].blockno;
      if n >= LOGSIZE || n >= layout.size - 1 {
        return false;
      }
      if outstanding < 1 {
        return false;
      }
      var i := 0;
      while i < n && block[i] != cache.buf[b].slot.blockno
        invariant 0 <= i <= n && bn !in bl[..i]
      {
        i := i + 1;
      }
      block[i] := cache.buf[b].slot.blockno;
      if i == n {
        PinsAppend(bl, bn);
        ghost var slots := cache.slots;
        cache.Bpin(b);
        Pinned(slots, cache.slotOf, cache.disk.image, Pins(bl, 0), held, b);
        n := n + 1;
        assert block[..n] == bl + [bn];
      } else {
        assert block[..n] == bl;
      }
      return true;
    }

    // A caller's change to a buffer it holds.
    method Store(b: nat, data: Block, ghost pins: set<int>, ghost held: set<nat>)
      requires Holds(pins, held) && b in held && cache.slots[b].valid
      modifies cache`slots, cache.buf
      ensures Holds(pins, held)
      ensures cache.slots == old(cache.slots)[b := old(cache.slots)[b].(data := data)]
      ensures forall x: nat :: x < |cache.disk.image| ==>
                cache.Read(x) == if x == old(cache.slots)[b].blockno then data else old(cache.Read(x))
    {
      assert SlotHeld(cache.slots, b, held, pins, cache.disk.image);
      cache.Modify(b, data);
      Dirtied(old(cache.slots), cache.slotOf, cache.disk.image, pins, held, b, data);
    }

    // bread, look, brelse.
    method ReadBlock(bn: nat) returns (data: Block)
      requires Valid() && layout.Home(view, bn)
      modifies cache`slotOf, cache`lru, cache`slots, cache.buf
      ensures Valid() && data == view[bn]
    {
      ghost var pins := Pins(block[..n], 0);
      PinsBound(block[..n], 0);
      var b := Get(bn, pins, {});
      assert {} + {b} == {b};
      data := cache.buf[b].slot.data;
      Put(b, pins, {b});
      assert {b} - {b} == {};
    }

    // bread and change.
    method Change(bn: nat, data: Block) returns (b: nat)
      requires Valid() && layout.Home(view, bn)
      modifies cache`slotOf, cache`slots, cache.buf
      ensures b < NBUF && Holds(Pins(block[..n], 0), {b})
      ensures cache.slots[b].valid && cache.slots[b].blockno == bn
      ensures forall x: nat :: layout.Home(view, x) ==> cache.Read(x) == if x == bn then data else view[x]
    {
      PinsBound(block[..n], 0);
      b := Get(bn, Pins(block[..n], 0), {});
      assert {} + {b} == {b};
      Store(b, data, Pins(block[..n], 0), {b});
    }

    // An operation that has not logged all that it may meets no panic in log_write.
    lemma NotTooBig(k: nat)
      requires Valid() && Reserved() && k < |left| && left[k] > 0 && layout.size >= LOGSIZE - 1
      ensures n < layout.Capacity() && outstanding >= 1
    {
      SumHas(left, k);
    }

    // The end of that, once the block is logged.
    method Done(b: nat, ghost bn: nat, ghost data: Block, ghost bl: seq<int>)
      requires block.Length == LOGSIZE && layout.size <= LOGSIZE && n <= LOGSIZE && outstanding >= 0
      requires GoodList(layout, cache.disk.image, block[..n]) && Distinct(block[..n])
      requires cache.disk.image[layout.start][0] == 0 && layout.Home(view, bn) && |view| == |cache.disk.image|
      requires Holds(Pins(block[..n], 0), {b}) && cache.slots[b].blockno == bn && block[..n] == Absorb(bl, bn)
      requires forall x: nat :: layout.Home(view, x) ==> cache.Read(x) == if x == bn then data else view[x]
      modifies this`view, cache`lru, cache`slots, cache.buf
      ensures Valid() && view == old(view)[bn := data]
    {
      LoggedIsPinned(bl, bn);
      Put(b, Pins(block[..n], 0), {b});
      assert {b} - {b} == {};
      view := view[bn := data];
    }

    // bread, change, log_write, brelse: the only way a file system call changes a block.
    // false stands for a panic in log_write.
    method Update(bn: nat, data: Block) returns (ok: bool)
      requires Valid() && layout.Home(view, bn)
      modifies this`n, this`view, block, cache`slotOf, cache`lru, cache`slots, cache.buf
      ensures ok <==> old(n) < layout.Capacity() && outstanding >= 1
      ensures ok ==> Valid() && view == old(view)[bn := data] && block[..n] == Absorb(old(block[..n]), bn)
    {
      ghost var bl := block[..n];
      var b := Change(bn, data);
      ok := LogWrite(b, {b});
      if ok {
        AbsorbKeeps(layout, cache.disk.image, bl, bn);
        Done(b, bn, data, bl);
      }
    }

    // Operation `op` has logged `d` blocks more.
    ghost method Charge(op: nat, d: nat)
      requires d <= 1 && op < |left| && left[op] > 0
      modifies this`left
      ensures left == old(left)[op := old(left)[op] - d] && Sum(left) + d == Sum(old(left))
    {
      SumUpdate(left, op, left[op] - d);
      left := left[op := left[op] - d];
    }

    // The same by operation `op`.  As long as it keeps to what it may log there is no panic, and
    // nothing is taken from the other operations.
    method WriteBlock(bn: nat, data: Block, ghost op: nat) returns (ok: bool)
      requires Valid() && layout.Home(view, bn)
      modifies this`n, this`view, this`left, block, cache`slotOf, cache`lru, cache`slots, cache.buf
      ensures ok <==> old(n) < layout.Capacity() && outstanding >= 1
      ensures ok ==> Valid() && view == old(view)[bn := data] && block[..n] == Absorb(old(block[..n]), bn)
      ensures old(Reserved()) && op < |old(left)| && old(left)[op] > 0 && layout.size >= LOGSIZE - 1 ==>
                ok && Reserved() && left == old(left)[op := old(left)[op] - (n - old(n))]
    {
      ghost var had := n;
      assert |block[..n]| == n;
      if Reserved() && op < |left| && left[op] > 0 && layout.size >= LOGSIZE - 1 { NotTooBig(op); }
      ok := Update(bn, data);
      if ok {
        assert |block[..n]| == n && had <= n <= had + 1;
        if op < |left| && left[op] > 0 { Charge(op, n - had); }
      }
    }

    // One pass of the loop in begin_op; false means that the caller sleeps and tries again.
    // An operation that may start is promised its blocks, whatever the others have logged of
    // theirs; one that may not has to wait for a commit, or for blocks that others may still log.
    method TryBeginOp() returns (ok: bool)
      requires Valid() && Reserved()
      modifies this`outstanding, this`left
      ensures Valid() && Reserved() && outstanding == |left|
      ensures left == if ok then old(left) + [OPBLOCKS] else old(left)
      ensures ok ==> !committing
      ensures !ok ==> committing || n + (outstanding + 1) * MAXOPBLOCKS > LOGSIZE
    {
      if committing {
        return false;
      } else if n + (outstanding + 1) * MAXOPBLOCKS > LOGSIZE {
        return false;
      } else {
        SumAppend(left, OPBLOCKS);
        SumAtMost(left);
        outstanding := outstanding + 1;
        left := left + [OPBLOCKS];
        return true;
      }
    }

    lemma {:induction false} SumAtMost(s: seq<nat>)
      requires forall k :: 0 <= k < |s| ==> s[k] <= OPBLOCKS
      ensures Sum(s) <= |s| * OPBLOCKS
    {
      if s != [] { SumAtMost(s[..|s| - 1]); }
    }

    // commit, with what a power failure at any moment of it means.
    method CommitSafely()
      requires Valid() && committing
      modifies this`n, cache`slotOf, cache`lru, cache`slots, cache.buf, cache.disk
      ensures Valid() && n == 0 && SameHome(layout, view, cache.disk.image)
      ensures |old(cache.disk.trace)| <= |cache.disk.trace|
      ensures cache.disk.trace[..|old(cache.disk.trace)|] == old(cache.disk.trace)
      ensures CrashSafe(layout, cache.disk.trace[|old(cache.disk.trace)|..], old(n), old(cache.disk.image), view)
    {
      ghost var d, bl, t := cache.disk.image, block[..n], cache.disk.trace;
      Commit();
      CommitCrashSafe(layout, d, bl, view);
      assert cache.disk.trace[|t|..] == if bl == [] then [] else CommitTrace(layout, d, bl, Pick(view, bl));
    }

    // end_op: the last operation commits.  Wherever power fails meanwhile, recovery gives
    // the home blocks of before or those of the view, switching once, at the header write.
    method EndOp(ghost op: nat)
      requires Valid() && outstanding >= 1 && !committing
      modifies this`n, this`outstanding, this`committing, this`left,
               cache`slotOf, cache`lru, cache`slots, cache.buf, cache.disk
      ensures Valid() && !committing && outstanding == old(outstanding) - 1
      ensures old(Reserved()) && op < |old(left)| ==> Reserved() && left == old(left)[..op] + old(left)[op + 1..]
      ensures |old(cache.disk.trace)| <= |cache.disk.trace|
      ensures cache.disk.trace[..|old(cache.disk.trace)|] == old(cache.disk.trace)
      ensures CrashSafe(layout, cache.disk.trace[|old(cache.disk.trace)|..], old(n), old(cache.disk.image), view)
      ensures if outstanding > 0 then n == old(n) && cache.disk.trace == old(cache.disk.trace)
              else n == 0 && SameHome(layout, view, cache.disk.image)
    {
      outstanding := outstanding - 1;
      if op < |left| {
        SumRemove(left, op);
        left := left[..op] + left[op + 1..];
      }
      if outstanding == 0 {
        committing := true;
        CommitSafely();
        committing := false;
      }
    }
  }
}
