/** umalloc.c: free, morecore and malloc, the allocator of Kernighan and Ritchie, on the
    memory of HeapBlocks. */
module Umalloc {
  import opened Common
  import opened HeapBlocks

  const MORECORE: nat := 4096   // the least that morecore asks for

  /** malloc's nunits: the bytes in headers, and one header more. */
  function Units(nbytes: nat): nat {
    (nbytes + 15) / 16 + 1
  }

  class Heap {
    var mem: map<nat, Header>
    var freep: nat   // 0 before the first malloc
    var brk: nat     // the process's break, in units
    ghost var list: seq<nat>
    ghost var live: set<nat>
    ghost var owner: map<nat, nat>

    ghost function V(): View
      reads this
    {
      View(mem, list, live, owner)
    }

    ghost predicate Fresh()
      reads this
    {
      V() == View(map[BASE := Header(0, 0)], [BASE], {}, map[])
    }

    ghost predicate Inv()
      reads this
    {
      && Above(V(), brk)
      && if freep == 0 then Fresh() else Valid(V()) && freep in list
    }

    constructor (end: nat)
      requires end > BASE
      ensures Inv() && live == {} && owner == map[] && brk == end
    {
      mem, freep, brk := map[BASE := Header(0, 0)], 0, end;
      list, live, owner := [BASE], {}, map[];
    }

    lemma BlockNotListed(bp: nat)
      requires Valid(V()) && bp in live
      ensures bp !in list && bp > BASE
    {
      forall k | 0 <= k < |list| ensures list[k] != bp { assert FreeOk(V(), k); }
      OwnsItsHeader(V(), bp);
      assert HomeOk(V(), bp);
    }

    /** The first half of free: the scan for the place of `bp`, once around at most. */
    method Seek(bp: nat) returns (p: nat)
      requires Valid(V()) && freep in list && bp in live
      ensures exists j: nat :: Before(V(), j, bp) && p == list[j]
    {
      BlockNotListed(bp);
      ghost var v := V();
      ghost var j := HasPlace(v, bp);
      p := freep;
      ghost var i :| 0 <= i < |list| && list[i] == p;
      ScanStops(v, i, j, bp);
      while !(bp > p && bp < mem[p].ptr)
        invariant 0 <= i < |list| && p == list[i] && p in mem
        invariant bp > p && bp < mem[p].ptr ==> i == j
        decreases Dist(|list|, i, j)
      {
        ScanStops(v, i, j, bp);
        if p >= mem[p].ptr && (bp > p || bp < mem[p].ptr) {
          break;
        }
        assert LinkOk(v, i);
        p := mem[p].ptr;
        i := Next(list, i);
        ScanStops(v, i, j, bp);
      }
      ScanStops(v, i, j, bp);
    }

    /** The second half of free: put `bp` after `p` and merge it with either neighbour. */
    method Link(p: nat, bp: nat)
      requires p in mem && bp in mem && mem[p].ptr in mem && p != bp
      modifies this`mem
      ensures mem == Linked(old(mem), p, bp)
    {
      var next := mem[p].ptr;
      if bp + mem[bp].size == next {
        mem := mem[bp := Header(mem[next].ptr, mem[bp].size + mem[next].size)];
      } else {
        mem := mem[bp := Header(next, mem[bp].size)];
      }
      if p + mem[p].size == bp {
        mem := mem[p := Header(mem[bp].ptr, mem[p].size + mem[bp].size)];
      } else {
        mem := mem[p := Header(bp, mem[p].size)];
      }
    }

    /** The block becomes free; no other block in use changes. */
    method Free(ap: nat)
      requires Inv() && ap > 0 && ap - 1 in live
      modifies this`mem, this`freep, this`list, this`live, this`owner
      ensures Inv() && freep != 0
      ensures live == old(live) - {ap - 1} && owner.Keys == old(owner.Keys)
      ensures ap - 1 in old(mem) && HasRoom(V(), old(mem[ap - 1].size))
      ensures forall a :: a in live ==> Untouched(old(V()), V(), a)
    {
      var bp := ap - 1;
      ghost var v := V();
      var p := Seek(bp);
      ghost var w := Freed(v, p, bp);
      Link(p, bp);
      list, live, owner := w.list, w.live, w.owner;
      freep := p;
      assert V() == w;
    }

    /** The kernel's sbrk.  It refuses (`room` is None), or returns zeroed memory beyond everything
        so far; `room` is then what the program itself has asked for since. */
    method Sbrk(n: nat, room: Option<nat>) returns (ok: bool, a: nat)
      requires Above(V(), brk)
      modifies this`mem, this`brk
      ensures ok == room.Some?
      ensures !ok ==> mem == old(mem) && brk == old(brk)
      ensures ok ==> a == old(brk) + room.value && brk == a + n
      ensures ok ==> mem == old(mem) + (map u: nat | a <= u < a + n && Within(a, n, u) :: Header(0, 0))
    {
      a := brk;
      ok := room.Some?;
      if ok {
        a := brk + room.value;
        mem := mem + (map u: nat | a <= u < a + n && Within(a, n, u) :: Header(0, 0));
        brk := a + n;
      }
    }

    /** The region that morecore gets from sbrk, as one block in use. */
    method Region(n: nat, room: Option<nat>) returns (hp: nat)
      requires Inv() && freep != 0 && n > 0
      modifies this`mem, this`brk, this`live, this`owner
      ensures Inv() && (hp == 0 <==> room.None?) && (hp == 0 ==> V() == old(V()) && brk == old(brk))
      ensures hp != 0 ==> V() == Grow(old(V()), hp, n) && Above(old(V()), hp)
      ensures hp != 0 ==> brk == old(brk) + room.value + n
    {
      ghost var v := V();
      var ok, a := Sbrk(n, room);
      if !ok {
        return 0;
      }
      hp := a;
      mem := mem[hp := mem[hp].(size := n)];
      ghost var w := Grow(v, hp, n);
      GrowSound(v, hp, n);
      assert mem == w.mem;
      live, owner := w.live, w.owner;
      assert V() == w;
    }

    /** umalloc.c:46-61.  It fails exactly when sbrk does; otherwise a block of `nu` units is
        free. */
    method Morecore(nu: nat, room: Option<nat>) returns (r: nat)
      requires Inv() && freep != 0 && nu > 0
      modifies this
      ensures Inv() && freep != 0 && live == old(live)
      ensures r == 0 <==> room.None?
      ensures r == 0 ==> V() == old(V()) && freep == old(freep) && brk == old(brk)
      ensures r != 0 ==> r == freep && HasRoom(V(), nu) && Extends(old(V()), V())
      ensures r != 0 ==> brk == old(brk) + room.value + if nu < MORECORE then MORECORE else nu
    {
      var n := if nu < MORECORE then MORECORE else nu;
      ghost var v := V();
      var hp := Region(n, room);
      if hp == 0 {
        return 0;
      }
      ghost var w := V();
      assert hp !in v.live by { GrowIsNew(v, hp); }
      Free(hp + 1);
      assert HasRoom(V(), nu) by { var k :| 0 <= k < |list| && SizeAt(V(), k) >= n; }
      forall a | a in live ensures Untouched(v, V(), a) {
        GrowUntouched(v, hp, n, a);
        UntouchedTrans(v, w, V(), a);
      }
      r := freep;
    }

    lemma NewBlock(v: View, k: nat, n: nat)
      requires Valid(v) && 0 < k < |v.list| && v.list[k] in v.mem && 0 < n <= v.mem[v.list[k]].size
      ensures v.list[k] + v.mem[v.list[k]].size - n !in v.live
    {
      assert FreeOk(v, k);
      if n < v.mem[v.list[k]].size {
        SplitAt(v, k, n);
        NoHeaderInside(v, v.list[k], v.list[k] + v.mem[v.list[k]].size - n, 0);
      }
    }

    /** malloc has found a block of exactly the right size: unlink it. */
    method Unlink(prevp: nat, p: nat, ghost i: nat)
      requires Inv() && freep != 0 && i + 1 < |list| && prevp == list[i] && p == list[i + 1]
      requires prevp in mem && p in mem
      modifies this`mem, this`list, this`live, this`freep
      ensures Inv() && freep == prevp != 0 && Gave(old(V()), V(), p, old(mem[p].size)) && Extends(old(V()), V())
    {
      ghost var v := V();
      TakeSound(v, i);
      ghost var w := Take(v, i);
      forall a | a in v.live ensures Untouched(v, w, a) { TakeUntouched(v, i, a); }
      assert FreeOk(v, i + 1);
      mem := mem[prevp := Header(mem[p].ptr, mem[prevp].size)];
      list, live := w.list, w.live;
      assert V() == w && list[i] == prevp;
      freep := prevp;
    }

    /** The block is too big: cut off its tail. */
    method Cut(prevp: nat, p: nat, n: nat, ghost k: nat) returns (b: nat)
      requires Inv() && freep != 0 && prevp in list && k < |list| && p == list[k]
      requires p in mem && mem[p].size > n > 0
      modifies this`mem, this`live, this`owner, this`freep
      ensures Inv() && freep == prevp != 0 && Gave(old(V()), V(), b, n)
      ensures owner.Keys == old(owner.Keys) && Extends(old(V()), V())
    {
      ghost var v := V();
      SplitAt(v, k, n);
      NewBlock(v, k, n);
      SplitSound(v, k, n);
      ghost var w := Split(v, k, n);
      forall a | a in v.live ensures Untouched(v, w, a) { SplitUntouched(v, k, n, a); }
      mem := mem[p := mem[p].(size := mem[p].size - n)];
      b := p + mem[p].size;
      mem := mem[b := mem[b].(size := n)];
      live, owner := w.live, w.owner;
      assert V() == w;
      freep := prevp;
    }

    /** A program writes a unit of one of its blocks, not its header. */
    method Write(a: nat, u: nat, h: Header)
      requires Inv() && a in live && UnitOf(V(), a, u) && u != a
      modifies this`mem
      ensures Inv() && mem == old(mem)[u := h]
    {
      ghost var v := V();
      mem := mem[u := h];
      assert HomeOk(v, u);
      forall i: nat ensures i < |list| ==> list[i] != u { if i < |list| { NodeUnits(v, i, a, u); } }
      NoHeaderInside(v, a, u, u);
      forall x | BlockOk(v, x) ensures BlockOk(V(), x) { SameBlock(v, V(), x); }
      forall i: nat ensures LinkOk(V(), i) && FreeOk(V(), i) && Apart(V(), i) && HomeOk(V(), i) {
        assert LinkOk(v, i) && FreeOk(v, i) && Apart(v, i) && HomeOk(v, i);
      }
    }

    /** malloc's first lines: an empty list on the first call. */
    method Start()
      requires Inv()
      modifies this`mem, this`freep
      ensures Inv() && freep != 0
      ensures old(freep) != 0 ==> mem == old(mem) && freep == old(freep)
      ensures forall n: nat :: n > 0 ==> (HasRoom(V(), n) <==> HasRoom(old(V()), n))
      ensures Extends(old(V()), V())
    {
      if freep == 0 {
        mem := mem[BASE := Header(BASE, 0)];
        freep := BASE;
        assert list[0] == BASE;
        forall i: nat ensures LinkOk(V(), i) && FreeOk(V(), i) && HomeOk(V(), i) && Apart(V(), i) {}
      }
    }

    /** Where malloc's scan stands: at node `c`, with node `f` the one at freep. */
    ghost predicate Scanning(c: nat, f: nat, prevp: nat, p: nat, n: nat)
      reads this
    {
      && Inv() && freep != 0 && c < |list| && f < |list| && list[f] == freep && list[c] == p
      && p in mem && exists i: nat :: i < |list| && c == Next(list, i) && list[i] == prevp
    }

    /** Every node that fits is still ahead; once morecore has helped there is one. */
    ghost predicate Searched(c: nat, f: nat, n: nat, grown: bool)
      reads this
    {
      if grown then exists k: nat :: Ahead(|list|, c, f, k) && SizeAt(V(), k) >= n
      else forall k: nat :: k < |list| && SizeAt(V(), k) >= n ==> Ahead(|list|, c, f, k)
    }

    /** Going round from the node after `start`, which is node `f`, node `c` is the first that fits. */
    ghost predicate FirstFit(c: nat, f: nat, start: nat, n: nat)
      reads this
    {
      f < |list| && list[f] == start && SizeAt(V(), c) >= n && Searched(c, f, n, false)
    }

    lemma Enter(f: nat, n: nat, grown: bool)
      requires Inv() && freep != 0 && f < |list| && list[f] == freep && (grown ==> HasRoom(V(), n))
      ensures freep in mem && Scanning(Next(list, f), f, freep, mem[freep].ptr, n)
      ensures Searched(Next(list, f), f, n, grown)
    {
      assert LinkOk(V(), f) && LinkOk(V(), Next(list, f));
      forall k: nat | k < |list| ensures Ahead(|list|, Next(list, f), f, k) { StartAhead(V(), f, k); }
      if grown {
        var k :| 0 <= k < |list| && SizeAt(V(), k) >= n;
        assert Ahead(|list|, Next(list, f), f, k);
      }
    }

    lemma Advance(c: nat, f: nat, prevp: nat, p: nat, n: nat, grown: bool)
      requires Scanning(c, f, prevp, p, n) && Searched(c, f, n, grown) && mem[p].size < n && p != freep
      ensures Scanning(Next(list, c), f, p, mem[p].ptr, n) && Searched(Next(list, c), f, n, grown)
      ensures Dist(|list|, Next(list, c), f) < Dist(|list|, c, f)
    {
      assert LinkOk(V(), c) && LinkOk(V(), Next(list, c));
      StepAhead(V(), c, f, c);
      forall k: nat | Ahead(|list|, c, f, k) && SizeAt(V(), k) >= n ensures Ahead(|list|, Next(list, c), f, k) {
        StepAhead(V(), c, f, k);
      }
    }

    lemma Around(c: nat, f: nat, prevp: nat, p: nat, n: nat, grown: bool)
      requires Scanning(c, f, prevp, p, n) && Searched(c, f, n, grown) && mem[p].size < n && p == freep
      ensures !grown && !HasRoom(V(), n)
    {
      assert c == f by { assert Sorted(list); }
      forall k: nat | Ahead(|list|, c, f, k) ensures k == f {}
    }

    lemma Found(c: nat, f: nat, prevp: nat, p: nat, n: nat) returns (i: nat)
      requires Scanning(c, f, prevp, p, n) && mem[p].size >= n > 0
      ensures p != 0 && HasRoom(V(), n) && SizeAt(V(), c) >= n
      ensures i + 1 == c < |list| && prevp == list[i] && p == list[i + 1] && prevp in mem && p in mem
    {
      i :| i < |list| && c == Next(list, i) && list[i] == prevp;
      assert LinkOk(V(), c) && LinkOk(V(), i) && SizeAt(V(), c) >= n;
    }

    /** The scan has come around: ask for more, and begin again. */
    method Again(n: nat, room: Option<nat>) returns (p: nat, ghost f: nat)
      requires Inv() && freep != 0 && n > 0
      modifies this
      ensures Inv() && freep != 0 && live == old(live) && Extends(old(V()), V())
      ensures p == 0 <==> room.None?
      ensures p == 0 ==> V() == old(V()) && brk == old(brk) && freep == old(freep)
      ensures p != 0 ==> brk == old(brk) + room.value + if n < MORECORE then MORECORE else n
      ensures p != 0 ==> p == freep && f < |list| && list[f] == p && p in mem
      ensures p != 0 ==> Scanning(Next(list, f), f, p, mem[p].ptr, n) && Searched(Next(list, f), f, n, true)
    {
      p := Morecore(n, room);
      f := 0;
      if p == 0 {
        return;
      }
      f :| f < |list| && list[f] == freep;
      Enter(f, n, true);
    }

    /** What has changed since the state before, with the view `v`, the break `end` and freep `start`. */
    ghost predicate Asked(v: View, end: nat, start: nat, n: nat, room: Option<nat>, grown: bool)
      reads this
    {
      if grown then
        && !HasRoom(v, n) && room.Some? && live == v.live && Extends(v, V())
        && brk == end + room.value + if n < MORECORE then MORECORE else n
      else V() == v && brk == end && freep == start
    }

    /** One turn of malloc's loop, at a node that is too small: on to the next one, past morecore
        when the scan has come around. */
    method Turn(prevp0: nat, p0: nat, n: nat, room: Option<nat>, ghost c0: nat, ghost f0: nat, ghost grown0: bool,
                ghost v: View, ghost end: nat, ghost start: nat)
      returns (prevp: nat, p: nat, ghost c: nat, ghost f: nat, ghost grown: bool)
      requires Scanning(c0, f0, prevp0, p0, n) && Searched(c0, f0, n, grown0) && n > 0
      requires Asked(v, end, start, n, room, grown0) && mem[p0].size < n
      modifies this
      ensures p == 0 ==> Asked(v, end, start, n, room, false) && Inv() && freep != 0 && !HasRoom(v, n) && room.None?
      ensures p != 0 ==> Scanning(c, f, prevp, p, n) && Searched(c, f, n, grown)
      ensures p != 0 ==> Asked(v, end, start, n, room, grown)
      ensures p != 0 ==> if grown == grown0 then Dist(|list|, c, f) < Dist(|old(list)|, c0, f0) else grown
    {
      prevp, p, c, f, grown := prevp0, p0, c0, f0, grown0;
      if p == freep {
        Around(c, f, prevp, p, n, grown);
        p, f := Again(n, room);
        if p == 0 {
          return;
        }
        grown := true;
        c := Next(list, f);
      } else {
        Advance(c, f, prevp, p, n, grown);
        c := Next(list, c);
      }
      prevp := p;
      p := mem[p].ptr;
      assert LinkOk(V(), c);
    }

    lemma Done(v: View, end: nat, start: nat, c: nat, f: nat, prevp: nat, p: nat, n: nat, room: Option<nat>,
               grown: bool)
      returns (i: nat)
      requires Scanning(c, f, prevp, p, n) && Searched(c, f, n, grown) && Asked(v, end, start, n, room, grown)
      requires mem[p].size >= n > 0
      ensures p != 0 && live == v.live && Extends(v, V())
      ensures if HasRoom(v, n) then V() == v && brk == end && FirstFit(i + 1, f, start, n)
              else room.Some? && brk == end + room.value + if n < MORECORE then MORECORE else n
      ensures i + 1 < |list| && prevp == list[i] && p == list[i + 1] && prevp in mem && p in mem
    {
      i := Found(c, f, prevp, p, n);
      ExtendsSelf(v);
      if HasRoom(v, n) { assert Searched(i + 1, f, n, false); }
    }

    /** malloc's loop: the first node from freep on that is big enough, with the node before
        it, after at most one morecore; `p` is 0 when that fails.  `v`, `end` and `start` are
        the state before. */
    method Find(n: nat, room: Option<nat>, ghost v: View, ghost end: nat, ghost start: nat)
      returns (prevp: nat, p: nat, ghost i: nat, ghost f: nat)
      requires Inv() && freep != 0 && n > 0 && v == V() && brk == end && freep == start
      modifies this
      ensures Inv() && freep != 0 && live == v.live && Extends(v, V())
      ensures p == 0 || HasRoom(v, n) ==> V() == v && brk == end
      ensures p == 0 <==> !HasRoom(v, n) && room.None?
      ensures p != 0 ==> i + 1 < |list| && prevp == list[i] && p == list[i + 1]
      ensures p != 0 ==> prevp in mem && p in mem && mem[p].size >= n
      ensures HasRoom(v, n) ==> FirstFit(i + 1, f, start, n)
      ensures p != 0 && !HasRoom(v, n) ==> brk == end + room.value + if n < MORECORE then MORECORE else n
    {
      prevp, i := freep, 0;
      f :| f < |list| && list[f] == prevp;
      Enter(f, n, false);
      p := mem[prevp].ptr;
      ghost var c, grown := Next(list, f), false;
      while mem[p].size < n
        invariant Scanning(c, f, prevp, p, n) && Searched(c, f, n, grown) && Asked(v, end, start, n, room, grown)
        decreases !grown, Dist(|list|, c, f)
      {
        prevp, p, c, f, grown := Turn(prevp, p, n, room, c, f, grown, v, end, start);
        if p == 0 {
          ExtendsSelf(v);
          return;
        }
      }
      i := Done(v, end, start, c, f, prevp, p, n, room, grown);
    }

    /** The block that the search has found becomes a block in use, or its tail does. */
    method Carve(prevp: nat, p: nat, n: nat, ghost i: nat) returns (b: nat)
      requires Inv() && freep != 0 && i + 1 < |list| && prevp == list[i] && p == list[i + 1]
      requires prevp in mem && p in mem && mem[p].size >= n > 0
      modifies this`mem, this`list, this`live, this`owner, this`freep
      ensures Inv() && freep == prevp != 0 && Gave(old(V()), V(), b, n) && Extends(old(V()), V())
      ensures owner.Keys == old(owner.Keys)
    {
      b := p;
      if mem[p].size == n {
        Unlink(prevp, p, i);
      } else {
        b := Cut(prevp, p, n, i + 1);
      }
    }

    /** A free block has room for `nbytes` bytes behind its header. */
    ghost predicate HasBytes(nbytes: nat)
      reads this
    {
      exists k :: 0 <= k < |list| && BytesAt(V(), k) >= nbytes
    }

    /** A new block for the bytes asked for and less than one unit more, disjoint from every
        block in use, none of which changes.  sbrk is asked only when no free block has room for
        the bytes, then for 4096 units or, if it is more, the new block; malloc fails exactly when
        sbrk then refuses. */
    method Malloc(nbytes: nat, room: Option<nat>) returns (r: nat)
      requires Inv() && nbytes <= 0x7fff_ffe0   // sbrk takes an int
      modifies this
      ensures Inv() && freep != 0 && Extends(old(V()), V())
      ensures r == 0 <==> !old(HasBytes(nbytes)) && room.None?
      ensures r == 0 ==> live == old(live) && owner == old(owner) && brk == old(brk)
      ensures r != 0 ==> r - 1 !in old(live) && live == old(live) + {r - 1} && r - 1 in mem
      ensures r != 0 ==> nbytes <= 16 * (mem[r - 1].size - 1) < nbytes + 16
      ensures old(HasBytes(nbytes)) ==> r != 0 && owner.Keys == old(owner.Keys) && brk == old(brk)
      ensures !old(HasBytes(nbytes)) && r != 0 ==>
                brk == old(brk) + room.value + if mem[r - 1].size < 4096 then 4096 else mem[r - 1].size
    {
      var nunits := Units(nbytes);
      ghost var v := V();
      RoomInBytes(v, nbytes);
      Start();
      ghost var w := V();
      var prevp, p, i, f := Find(nunits, room, w, brk, freep);
      ghost var x := V();
      ExtendsTrans(v, w, x);
      if p == 0 {
        return 0;
      }
      var b := Carve(prevp, p, nunits, i);
      ExtendsTrans(v, x, V());
      return b + 1;
    }
  }

  lemma ExtendsSelf(v: View)
    ensures Extends(v, v)
  {
    forall a | a in v.live ensures Untouched(v, v, a) {}
  }

  /** The bytes behind the header of the `k`th free block. */
  function BytesAt(v: View, k: nat): int {
    if k < |v.list| && v.list[k] in v.mem then 16 * (v.mem[v.list[k]].size - 1) else -16
  }

  lemma RoomInBytes(v: View, nbytes: nat)
    ensures HasRoom(v, Units(nbytes)) <==> exists k :: 0 <= k < |v.list| && BytesAt(v, k) >= nbytes
  {
    if HasRoom(v, Units(nbytes)) {
      var k :| 0 <= k < |v.list| && SizeAt(v, k) >= Units(nbytes);
      assert BytesAt(v, k) >= nbytes;
    }
    if k :| 0 <= k < |v.list| && BytesAt(v, k) >= nbytes {
      assert SizeAt(v, k) >= Units(nbytes);
    }
  }
}
