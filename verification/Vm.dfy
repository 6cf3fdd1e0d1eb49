/** kalloc.c and the address spaces of vm.c, on the memory of PageMem. */
module Vm {
  import opened PageMem
  import UserCopy

  const MAXVA := MAXVPN * PGSIZE

  class Kernel {
    var page: map<nat, seq<nat>>   // physical memory, by page number
    var freelist: nat              // address of the first free page, or 0
    ghost var free: seq<nat>
    ghost var use: map<nat, Use>
    ghost var spaces: map<nat, Space>

    ghost function M(): Mem
      reads this
    {
      Mem(page, free, use, spaces)
    }

    ghost predicate Listed()
      reads this
    {
      freelist == if |free| > 0 then free[0] * PGSIZE else 0
    }

    ghost predicate Valid()
      reads this
    {
      Inv(M()) && Listed()
    }

    /** kinit and freerange: all whole pages between the kernel's end and PHYSTOP are freed. */
    constructor (end: nat, phystop: nat)
      requires 0 < end
      ensures Valid() && spaces == map[]
      ensures forall f: nat :: f in use <==> Pages(end) <= f < phystop / PGSIZE
      ensures forall f: nat :: f in use ==> use[f].FREE?
    {
      page := map f: nat | Pages(end) <= f < phystop / PGSIZE && Between(Pages(end), phystop / PGSIZE, f) :: Filled(0);
      use := map f: nat | Pages(end) <= f < phystop / PGSIZE && Between(Pages(end), phystop / PGSIZE, f) :: OTHER;
      freelist, free, spaces := 0, [], map[];
      new;
      EmptyInv(M());
      var p := Pages(end) * PGSIZE;
      ghost var n := Pages(end);
      while p + PGSIZE <= phystop
        invariant p == n * PGSIZE && Pages(end) <= n && Valid() && spaces == map[]
        invariant forall f: nat :: f in use <==> Pages(end) <= f < phystop / PGSIZE
        invariant forall f: nat :: f in use ==> use[f] == if f < n then FREE else OTHER
      {
        FreeInv(M(), n);
        assert PageOk(M(), n);
        Kfree(p);
        p, n := p + PGSIZE, n + 1;
      }
    }

    method Kalloc() returns (pa: nat)
      requires Valid()
      modifies this`page, this`freelist, this`free, this`use
      ensures Valid()
      ensures pa == 0 <==> |old(free)| == 0
      ensures pa == 0 ==> M() == old(M())
      ensures pa != 0 ==> pa == old(free)[0] * PGSIZE && M() == Alloc(old(M()))
    {
      pa := freelist;
      if |free| > 0 {
        AllocInv(M());
        assert FreeAt(M(), 0);
      }
      if pa != 0 {
        ghost var w := Alloc(M());
        assert FreeAt(M(), 1);
        freelist := page[pa / PGSIZE][0];
        page := page[pa / PGSIZE := Filled(JUNK)];
        free, use := w.free, w.use;
      }
    }

    method Kfree(pa: nat)
      requires Listed() && pa % PGSIZE == 0 && pa / PGSIZE in page
      modifies this`page, this`freelist, this`free, this`use
      ensures Listed() && M() == Free(old(M()), pa / PGSIZE)
    {
      ghost var w := Free(M(), pa / PGSIZE);
      var f := pa / PGSIZE;
      page := page[f := Put(Filled(FREED), 0, freelist)];
      freelist := pa;
      free, use := w.free, w.use;
    }

    /** Why walk follows an entry exactly when the next table exists. */
    lemma Follow(r: nat, v: nat, level: nat)
      requires Valid() && r in spaces && v < MAXVPN && level < 2 && TableOf(v, level + 1) in spaces[r].tab
      ensures var t := spaces[r].tab[TableOf(v, level + 1)];
        && t in page && |page[t]| == ENTRIES
        && var pte := page[t][Index(v, level + 1)];
           if TableOf(v, level) in spaces[r].tab then pte % 2 == 1 && pte / 1024 == spaces[r].tab[TableOf(v, level)]
           else pte % 2 == 0
      ensures TableOf(v, level) !in spaces[r].tab ==> Node(0, v / ENTRIES) !in spaces[r].tab
    {
      Path(v, level);
      Path(v, 0);
      assert EntryOk(M(), r, TableOf(v, level + 1), Index(v, level + 1));
      assert PageOk(M(), spaces[r].tab[TableOf(v, level + 1)]) && NodeOk(M(), r, TableOf(v, level + 1));
      assert NodeOk(M(), r, TableOf(v, 0));
    }

    /** walk's allocating branch: a zeroed table, entered into the page `t`. */
    method NewTable(r: nat, v: nat, level: nat, t: nat) returns (f: nat)
      requires Valid() && r in spaces && v < MAXVPN && level < 2
      requires TableOf(v, level + 1) in spaces[r].tab && t == spaces[r].tab[TableOf(v, level + 1)]
      requires TableOf(v, level) !in spaces[r].tab
      modifies this
      ensures Valid()
      ensures f == 0 ==> M() == old(M()) && free == []
      ensures f != 0 ==> Ext(old(M()), M(), r, 0, 0)
      ensures f != 0 ==> |free| + 1 == |old(free)| && Tables(M(), r) == Tables(old(M()), r) + {TableOf(v, level)}
      ensures f != 0 ==> TableOf(v, level) in spaces[r].tab && spaces[r].tab[TableOf(v, level)] == f
    {
      ghost var m := M();
      Path(v, level);
      ghost var x := m;
      TableHere(m, r, TableOf(v, level + 1));
      if |free| > 0 {
        SproutInv(m, r, TableOf(v, level), 0);
        x := Sprout(m, r, TableOf(v, level));
      }
      var pa := Kalloc();
      if pa == 0 {
        return 0;
      }
      f := pa / PGSIZE;
      assert FreeAt(m, 0) && PageOk(m, f);
      page := page[f := Filled(0)];
      page := page[t := Put(page[t], Index(v, level + 1), TableEntry(f))];
      use, spaces := x.use, x.spaces;
      assert M() == x;
    }

    /** vm.c:85-103.  It finds the page of entries for `va` if there is one, and otherwise
        makes it when it may and there is memory.  No mapping changes. */
    method Walk(r: nat, va: nat, alloc: bool) returns (ok: bool, t: nat)
      requires Valid() && r in spaces && va < MAXVA
      modifies this
      ensures Valid() && Ext(old(M()), M(), r, 0, 0)
      ensures var n := Node(0, va / PGSIZE / ENTRIES);
        && (n in old(spaces)[r].tab ==> ok)
        && (n in old(spaces)[r].tab || !alloc ==> M() == old(M()))
        && (ok <==> n in spaces[r].tab) && (ok ==> t == spaces[r].tab[n] && HasEntry(M(), r, va / PGSIZE))
        && (!ok && alloc ==> free == [])
      ensures alloc ==> Spent(old(M()), M(), r, va / PGSIZE, 0, ok)
    {
      var v := va / PGSIZE;
      ghost var m := M();
      ExtSame(m, r, 0);
      Path(v, 0);
      assert SpaceOk(m, r) && NodeOk(m, r, ROOT);
      t, ok := r, false;
      var level := 2;
      while level > 0
        invariant 0 <= level <= 2 && Valid() && Ext(m, M(), r, 0, 0)
        invariant Walked(m, M(), r, v)
        invariant TableOf(v, level) in spaces[r].tab && t == spaces[r].tab[TableOf(v, level)]
        invariant TableOf(v, 0) in m.spaces[r].tab || !alloc ==> M() == m
      {
        level := level - 1;
        Follow(r, v, level);
        var pte := page[t][Index(v, level + 1)];
        if pte % 2 == 1 {
          t := pte / 1024;
        } else {
          if !alloc {
            return;
          }
          ghost var w := M();
          var f := NewTable(r, v, level, t);
          if f == 0 {
            WalkedShort(m, M(), r, v, level);
            return;
          }
          ExtTrans(m, w, M(), r, 0, 0, 0);
          WalkedOn(m, w, M(), r, v, level);
          t := f;
        }
      }
      ok := true;
      TableHere(M(), r, TableOf(v, 0));
      WalkedAll(m, M(), r, v);
    }

    /** vm.c:108-126, on the tables.  It finds what UserCopy takes from the flat map. */
    method Walkaddr(r: nat, va: nat) returns (pa: nat)
      requires Valid() && r in spaces
      modifies this
      ensures M() == old(M()) && pa == UserCopy.Walkaddr(UserPages(spaces[r]), va) * PGSIZE
    {
      if va >= MAXVA {
        return 0;
      }
      ghost var v := va / PGSIZE;
      Path(v, 0);
      if v in spaces[r].leaf { LeafEntry(M(), r, v); }
      var ok, t := Walk(r, va, false);
      if !ok {
        return 0;
      }
      assert EntryOk(M(), r, TableOf(v, 0), Index(v, 0));
      Slot(v / ENTRIES, v % ENTRIES, v);
      var pte := page[t][Index(va / PGSIZE, 0)];
      if pte % 2 == 0 {
        return 0;
      }
      if pte / 16 % 2 == 0 {   // PTE_U
        return 0;
      }
      return pte / 1024 * PGSIZE;
    }

    /** mappages writes the entry of page `v` in the table page `t`. */
    method Fill(r: nat, v: nat, t: nat, f: nat, perm: nat)
      requires Valid() && HasEntry(M(), r, v) && t == spaces[r].tab[Node(0, v / ENTRIES)]
      requires v !in spaces[r].leaf && Perm(perm)
      modifies this`page, this`use, this`spaces
      ensures Valid() && M() == SetLeaf(old(M()), r, v, Entry(f, perm))
    {
      ghost var w := M();
      Path(v, 0);
      assert EntryOk(w, r, Node(0, v / ENTRIES), v % ENTRIES);
      Slot(v / ENTRIES, v % ENTRIES, v);
      assert page[t][Index(v, 0)] % 2 == 0;   // no "mappages: remap"
      SetLeafMapped(w, r, v, f, perm);
      page := page[t := Put(page[t], Index(v, 0), Entry(f, perm))];
      ghost var x := SetLeaf(w, r, v, Entry(f, perm));
      use, spaces := x.use, x.spaces;
      assert M() == x;
    }

    /** One turn of mappages: walk to the entry and fill it in. */
    method MapOne(r: nat, a: nat, pa: nat, perm: nat) returns (ok: bool)
      requires Valid() && r in spaces && a < MAXVA && a / PGSIZE !in spaces[r].leaf && Perm(perm)
      modifies this
      ensures Valid()
      ensures Mapped(old(M()), M(), r, a / PGSIZE, if ok then 1 else 0, pa / PGSIZE, perm)
      ensures !ok ==> free == []
      ensures Spent(old(M()), M(), r, a / PGSIZE, 0, ok)
    {
      ghost var m := M();
      var t;
      ok, t := Walk(r, a, true);
      ghost var w := M();
      var v, f := a / PGSIZE, pa / PGSIZE;
      MappedNone(m, w, r, v, f, perm);
      if !ok {
        return;
      }
      SetLeafMapped(w, r, v, f, perm);
      Fill(r, v, t, f, perm);
      MappedTrans(m, w, M(), r, v, 0, v, f, 1, 1, f, perm);
    }

    /** One turn of mappages' loop: page `v`, after the first `n` from `lo` on. */
    method MapNext(r: nat, a: nat, p: nat, perm: nat, ghost lo: nat, ghost n: nat, ghost v: nat, ghost hi: nat,
                   ghost f0: nat, ghost m: Mem)
      returns (ok: bool, ghost n1: nat, ghost v1: nat)
      requires Valid() && r in spaces && a < MAXVA && a / PGSIZE == v == lo + n < hi && p / PGSIZE == f0 + n
      requires Perm(perm) && r in m.spaces && v !in m.spaces[r].leaf
      requires Mapped(m, M(), r, lo, n, f0, perm) && Spending(m, M(), r, lo, v, hi, 0)
      modifies this
      ensures Valid() && Mapped(m, M(), r, lo, n1, f0, perm)
      ensures v1 == v + 1 && n1 == if ok then n + 1 else n
      ensures if ok then Spending(m, M(), r, lo, v1, hi, 0)
              else free == [] && |m.free| < Needed(Tables(m, r), lo, hi, 0)
    {
      ghost var w := M();
      assert MapEntry(m, w, r, lo, n, f0, perm, v);
      ok := MapOne(r, a, p, perm);
      ghost var k := if ok then 1 else 0;
      n1, v1 := n + k, v + 1;
      MappedTrans(m, w, M(), r, lo, n, a / PGSIZE, p / PGSIZE, k, n1, f0, perm);
      SpendingOn(m, w, M(), r, lo, v, v1, hi, 0, ok);
    }

    /** vm.c:142-165.  It maps every page of the range, if there are free pages for the tables
        that it lacks, or else the first `n` of them. */
    method Mappages(r: nat, va: nat, size: nat, pa: nat, perm: nat) returns (ok: bool, ghost n: nat)
      requires Valid() && r in spaces && size > 0 && va + size <= MAXVA && Perm(perm)
      requires forall v: nat :: va / PGSIZE <= v <= (va + size - 1) / PGSIZE ==> v !in spaces[r].leaf
      modifies this
      ensures Valid() && Mapped(old(M()), M(), r, va / PGSIZE, n, pa / PGSIZE, perm)
      ensures n <= (va + size - 1) / PGSIZE - va / PGSIZE + 1
      ensures ok <==> n == (va + size - 1) / PGSIZE - va / PGSIZE + 1
      ensures MapSpent(old(M()), M(), r, va / PGSIZE, (va + size - 1) / PGSIZE + 1, ok)
    {
      ghost var m, lo, f0 := M(), va / PGSIZE, pa / PGSIZE;
      ghost var v: nat, hi: nat := lo, (va + size - 1) / PGSIZE + 1;
      var a := va / PGSIZE * PGSIZE;
      var last := (va + size - 1) / PGSIZE * PGSIZE;
      var p := pa;
      n := 0;
      ExtSame(m, r, 0);
      MappedNone(m, m, r, lo, f0, perm);
      ok := true;
      while true
        invariant Valid() && Mapped(m, M(), r, lo, n, f0, perm) && Spending(m, M(), r, lo, v, hi, 0)
        invariant v == lo + n && a == v * PGSIZE && p == pa + n * PGSIZE && a <= last
        decreases last - a
      {
        ok, n, v := MapNext(r, a, p, perm, lo, n, v, hi, f0, m);
        if !ok {
          return;
        }
        if a == last {
          assert v == hi;
          SpendingEnds(m, M(), r, lo, v, 0);
          return;
        }
        a, p := a + PGSIZE, p + PGSIZE;
      }
    }

    /** uvmunmap, once it has the entry: the page first, then the entry. */
    method Zap(r: nat, v: nat, t: nat, doFree: bool)
      requires Valid() && r in spaces && v in spaces[r].leaf && (doFree ==> OwnPage(M(), r, v))
      requires HasEntry(M(), r, v) && t == spaces[r].tab[Node(0, v / ENTRIES)]
      modifies this
      ensures M() == Unmap(old(M()), r, v, doFree) && Listed()
    {
      ghost var m := M();
      LeafEntry(m, r, v);
      var pte := page[t][Index(v, 0)];
      assert pte % 2 == 1 && pte % 1024 != 1;   // no "uvmunmap: not mapped", no "uvmunmap: not a leaf"
      ghost var x := Unmap(m, r, v, doFree);
      if doFree {
        Kfree(pte / 1024 * PGSIZE);
      }
      page := page[t := Put(page[t], Index(v, 0), 0)];
      use, spaces := x.use, x.spaces;
      assert page == x.page;
    }

    /** One turn of uvmunmap. */
    method UnmapOne(r: nat, a: nat, doFree: bool)
      requires Valid() && r in spaces && a < MAXVA && a / PGSIZE in spaces[r].leaf
      requires doFree ==> OwnPage(M(), r, a / PGSIZE)
      modifies this
      ensures Valid() && Unmapped(old(M()), M(), r, a / PGSIZE, a / PGSIZE + 1, doFree)
    {
      ghost var v := a / PGSIZE;
      LeafEntry(M(), r, v);
      UnmapInv(M(), r, v, doFree, v + 1);
      var ok, t := Walk(r, a, false);   // no "uvmunmap: walk"
      Zap(r, a / PGSIZE, t, doFree);
    }

    /** vm.c:170-192.  It unmaps exactly these pages, which must be mapped, and frees them on
        request, which they must allow. */
    method Uvmunmap(r: nat, va: nat, npages: nat, doFree: bool)
      requires Valid() && r in spaces && va % PGSIZE == 0 && va + npages * PGSIZE <= MAXVA
      requires forall v: nat :: va / PGSIZE <= v < va / PGSIZE + npages ==> v in spaces[r].leaf
      requires forall v: nat :: va / PGSIZE <= v < va / PGSIZE + npages && doFree ==> OwnPage(M(), r, v)
      modifies this
      ensures Valid() && Unmapped(old(M()), M(), r, va / PGSIZE, va / PGSIZE + npages, doFree)
    {
      ghost var m, lo, hi := M(), va / PGSIZE, va / PGSIZE + npages;
      UnmappedNone(m, r, lo, doFree);
      var a := va;
      while a < va + npages * PGSIZE
        invariant a % PGSIZE == 0 && lo <= a / PGSIZE <= hi && Valid()
        invariant Unmapped(m, M(), r, lo, a / PGSIZE, doFree)
      {
        ghost var w, v := M(), a / PGSIZE;
        assert UnmapEntry(m, w, r, lo, v, v);
        if doFree {
          assert OwnPage(m, r, v);
          assert UnmapAt(m, w, r, lo, v, doFree, m.spaces[r].leaf[v] / 1024);
        }
        UnmapOne(r, a, doFree);
        UnmappedTrans(m, w, M(), r, lo, v, v + 1, doFree);
        a := a + PGSIZE;
      }
    }

    /** The turn that uvmalloc and uvmcopy share: kalloc, fill the page, map it, and give it
        back if that fails. */
    method AddPage(r: nat, v: nat, words: seq<nat>, perm: nat) returns (ok: bool, ghost end: nat)
      requires Valid() && r in spaces && v < MAXVPN && v !in spaces[r].leaf && Perm(perm) && |words| == ENTRIES
      modifies this
      ensures Valid() && end == (if ok then v + 1 else v) && Ext(old(M()), M(), r, v, end)
      ensures ok ==> Holds(M(), r, v, words, Entry(0, perm))
      ensures Spent(old(M()), M(), r, v, 1, ok)
    {
      ghost var m := M();
      if |free| > 0 { LoadedInv(m, words); } else { ExtSame(m, r, v); }
      end := v;
      var pa := Kalloc();
      if pa == 0 {
        return false, v;
      }
      page := page[pa / PGSIZE := words];
      assert M() == Loaded(m, words);
      ghost var n;
      ok, n := Mappages(r, v * PGSIZE, PGSIZE, pa, perm);
      PageSpent(m, words, M(), r, v, v + 1, ok);
      if ok {
        end := v + 1;
        PageAdded(m, words, M(), r, v, end, perm);
      } else {
        PageGivenBack(m, words, M(), r, v, perm);
        Kfree(pa);
      }
    }

    /** vm.c:255-267. */
    method Uvmdealloc(r: nat, oldsz: nat, newsz: nat) returns (sz: nat)
      requires Valid() && r in spaces && Pages(oldsz) <= MAXVPN
      requires forall v: nat :: Pages(newsz) <= v < Pages(oldsz) ==> OwnPage(M(), r, v)
      modifies this
      ensures Valid() && sz == if newsz >= oldsz then oldsz else newsz
      ensures newsz >= oldsz ==> M() == old(M())
      ensures newsz < oldsz ==> Unmapped(old(M()), M(), r, Pages(newsz), Pages(oldsz), true)
    {
      if newsz >= oldsz {
        return oldsz;
      }
      UnmappedNone(M(), r, Pages(newsz), true);
      if Pages(newsz) < Pages(oldsz) {
        forall v: nat | Pages(newsz) <= v < Pages(oldsz) ensures v in spaces[r].leaf { assert OwnPage(M(), r, v); }
        Uvmunmap(r, Pages(newsz) * PGSIZE, Pages(oldsz) - Pages(newsz), true);
      }
      return newsz;
    }

    /** The error path of uvmalloc: the pages added so far go back. */
    method TakeBack(r: nat, lo: nat, hi: nat, ghost m: Mem)
      requires Valid() && Inv(m) && Ext(m, M(), r, lo, hi) && r in spaces && lo <= hi <= MAXVPN
      requires forall v: nat :: lo <= v < hi ==> v !in m.spaces[r].leaf
      modifies this
      ensures Valid() && Ext(m, M(), r, lo, lo)
    {
      ghost var w := M();
      forall v: nat | lo <= v < hi ensures OwnPage(w, r, v) { assert PageOf(w, r, lo, hi, v); }
      var _ := Uvmdealloc(r, hi * PGSIZE, lo * PGSIZE);
      if lo < hi { Undone(m, w, M(), r, lo, hi); }
    }

    /** The first part of uvmalloc's turn, up to its failure. */
    method AddNext(r: nat, lo: nat, v: nat, perm: nat, ghost hi: nat, ghost m: Mem) returns (ok: bool, ghost end: nat)
      requires Valid() && Ext(m, M(), r, lo, v) && lo <= v < hi <= MAXVPN && Perm(perm) && v !in m.spaces[r].leaf
      requires Spending(m, M(), r, lo, v, hi, 1)
      modifies this
      ensures Valid() && end == (if ok then v + 1 else v) && Ext(m, M(), r, lo, end) && Ext(old(M()), M(), r, v, end)
      ensures ok ==> Holds(M(), r, v, Filled(0), Entry(0, perm))
      ensures if ok then Spending(m, M(), r, lo, end, hi, 1) else |m.free| < Needed(Tables(m, r), lo, hi, 1)
    {
      ghost var w := M();
      assert v !in spaces[r].leaf;
      ok, end := AddPage(r, v, Filled(0), perm);
      ExtTrans(m, w, M(), r, lo, v, end);
      SpendingOn(m, w, M(), r, lo, v, v + 1, hi, 1, ok);
    }

    /** One turn of uvmalloc: one page more, or none of those added since `m`. */
    method GrowOne(r: nat, lo: nat, v: nat, perm: nat, ghost hi: nat, ghost m: Mem) returns (ok: bool, ghost end: nat)
      requires Valid() && Inv(m) && Ext(m, M(), r, lo, v) && lo <= v < hi <= MAXVPN && Perm(perm)
      requires Zeroed(M(), r, lo, v, Entry(0, perm)) && forall u: nat :: lo <= u <= v ==> u !in m.spaces[r].leaf
      requires Spending(m, M(), r, lo, v, hi, 1)
      modifies this
      ensures Valid() && end == (if ok then v + 1 else lo) && Ext(m, M(), r, lo, end)
      ensures Zeroed(M(), r, lo, end, Entry(0, perm))
      ensures if ok then Spending(m, M(), r, lo, end, hi, 1) else |m.free| < Needed(Tables(m, r), lo, hi, 1)
    {
      ghost var w := M();
      ok, end := AddNext(r, lo, v, perm, hi, m);
      if ok {
        ZeroedOn(w, M(), r, lo, v, end, Entry(0, perm));
      } else {
        TakeBack(r, lo, v, m);
        end := lo;
      }
    }

    /** uvmalloc's loop, from page `lo` on. */
    method GrowTo(r: nat, lo: nat, newsz: nat, perm: nat) returns (ok: bool, ghost end: nat)
      requires Valid() && r in spaces && newsz <= MAXVA && Perm(perm) && lo <= Pages(newsz)
      requires forall v: nat :: lo <= v < Pages(newsz) ==> v !in spaces[r].leaf
      modifies this
      ensures Valid() && end == (if ok then Pages(newsz) else lo) && Ext(old(M()), M(), r, lo, end)
      ensures Zeroed(M(), r, lo, end, Entry(0, perm))
      ensures ok <==> |old(free)| >= Needed(Tables(old(M()), r), lo, Pages(newsz), 1)
      ensures ok ==> |old(free)| == |free| + Needed(Tables(old(M()), r), lo, Pages(newsz), 1)
    {
      ghost var m, hi := M(), Pages(newsz);
      ExtSame(m, r, lo);
      ok, end := true, lo;
      var a := lo * PGSIZE;
      while a < newsz
        invariant a == end * PGSIZE && lo <= end <= hi && ok && Valid()
        invariant Ext(m, M(), r, lo, end) && Zeroed(M(), r, lo, end, Entry(0, perm))
        invariant Spending(m, M(), r, lo, end, hi, 1)
        decreases hi - end
      {
        ok, end := GrowOne(r, lo, a / PGSIZE, perm, hi, m);
        if !ok {
          return;
        }
        a := a + PGSIZE;
      }
      assert end == hi;
      SpendingEnds(m, M(), r, lo, hi, 1);
    }

    /** vm.c:225-249; `ok` is "not the error return".  It adds zeroed pages of the space's own
        when there are free pages for them and for the tables that they lack, and takes no others;
        or it leaves every mapping and every page in use as it was. */
    method Uvmalloc(r: nat, oldsz: nat, newsz: nat, xperm: nat) returns (sz: nat, ok: bool, ghost end: nat)
      requires Valid() && r in spaces && newsz <= MAXVA && XPerm(xperm)
      requires forall v: nat :: Pages(oldsz) <= v < Pages(newsz) ==> v !in spaces[r].leaf
      modifies this
      ensures Valid() && (newsz < oldsz ==> ok && sz == oldsz && M() == old(M()))
      ensures newsz >= oldsz ==> sz == (if ok then newsz else 0) && end == if ok then Pages(newsz) else Pages(oldsz)
      ensures newsz >= oldsz ==>
          Ext(old(M()), M(), r, Pages(oldsz), end) && Zeroed(M(), r, Pages(oldsz), end, 19 + xperm)
      ensures newsz >= oldsz ==> (ok <==> |old(free)| >= Needed(Tables(old(M()), r), Pages(oldsz), Pages(newsz), 1))
      ensures newsz >= oldsz && ok ==>
                |old(free)| == |free| + Needed(Tables(old(M()), r), Pages(oldsz), Pages(newsz), 1)
    {
      if newsz < oldsz {
        return oldsz, true, 0;
      }
      UserEntry(xperm);
      ok, end := GrowTo(r, Pages(oldsz), newsz, 18 + xperm);   // PTE_R | PTE_U | xperm
      sz := if ok then newsz else 0;
    }

    /** A page like the parent's. */
    method CopyOne(ro: nat, rn: nat, a: nat) returns (ok: bool, ghost end: nat)
      requires Valid() && ro in spaces && rn in spaces && ro != rn && a < MAXVA
      requires OwnPage(M(), ro, a / PGSIZE) && a / PGSIZE !in spaces[rn].leaf
      modifies this
      ensures Valid() && end == (if ok then a / PGSIZE + 1 else a / PGSIZE) && Ext(old(M()), M(), rn, a / PGSIZE, end)
      ensures ok ==> CopiedPage(old(M()), ro, M(), rn, a / PGSIZE)
      ensures Spent(old(M()), M(), rn, a / PGSIZE, 1, ok)
    {
      var v := a / PGSIZE;
      LeafEntry(M(), ro, v);
      var _, t := Walk(ro, a, false);   // no "uvmcopy: pte should exist"
      var pte := page[t][Index(v, 0)];
      assert pte % 2 == 1;              // no "uvmcopy: page not present"
      assert PageOk(M(), pte / 1024);
      ok, end := AddPage(rn, v, page[pte / 1024], pte % 1024);
    }

    /** One turn of uvmcopy: one page more, or none of those copied since `m`. */
    method CopyNext(ro: nat, rn: nat, v: nat, ghost hi: nat, ghost m: Mem) returns (ok: bool, ghost end: nat)
      requires Valid() && Inv(m) && Ext(m, M(), rn, 0, v) && ro in spaces && ro != rn && v < hi <= MAXVPN
      requires OwnPage(m, ro, v) && Copied(m, ro, M(), rn, v) && Spending(m, M(), rn, 0, v, hi, 1)
      requires forall u: nat :: u <= v ==> u !in m.spaces[rn].leaf
      modifies this
      ensures Valid() && end == (if ok then v + 1 else 0) && Ext(m, M(), rn, 0, end) && Copied(m, ro, M(), rn, end)
      ensures if ok then Spending(m, M(), rn, 0, end, hi, 1) else |m.free| < Needed(Tables(m, rn), 0, hi, 1)
    {
      ghost var w := M();
      LeafEntry(m, ro, v);
      assert ExtAt(m, w, rn, 0, v, m.spaces[ro].leaf[v] / 1024);
      ok, end := CopyOne(ro, rn, v * PGSIZE);
      ExtTrans(m, w, M(), rn, 0, v, end);
      SpendingOn(m, w, M(), rn, 0, v, v + 1, hi, 1, ok);
      if ok {
        CopiedOn(m, ro, w, M(), rn, v, end);
      } else {
        TakeBack(rn, 0, v, m);
        end := 0;
      }
    }

    /** vm.c:305-333.  The child gets copies of all pages in pages of its own, when there are free
        pages for them and for their tables, or it is left without any; the parent's pages do not
        change. */
    method Uvmcopy(ro: nat, rn: nat, sz: nat) returns (ok: bool, ghost end: nat)
      requires Valid() && ro in spaces && rn in spaces && ro != rn && sz <= MAXVA
      requires forall v: nat :: v < Pages(sz) ==> OwnPage(M(), ro, v)
      requires forall v: nat :: v < Pages(sz) ==> v !in spaces[rn].leaf
      modifies this
      ensures Valid() && end == (if ok then Pages(sz) else 0)
      ensures Ext(old(M()), M(), rn, 0, end) && Copied(old(M()), ro, M(), rn, end)
      ensures ok <==> |old(free)| >= Needed(Tables(old(M()), rn), 0, Pages(sz), 1)
      ensures ok ==> |old(free)| == |free| + Needed(Tables(old(M()), rn), 0, Pages(sz), 1)
    {
      ghost var m, hi := M(), Pages(sz);
      ExtSame(m, rn, 0);
      end := 0;
      var i := 0;
      while i < sz
        invariant i == end * PGSIZE && end <= hi && Valid()
        invariant Ext(m, M(), rn, 0, end) && Copied(m, ro, M(), rn, end) && Spending(m, M(), rn, 0, end, hi, 1)
      {
        assert OwnPage(m, ro, end);
        ok, end := CopyNext(ro, rn, i / PGSIZE, hi, m);
        if !ok {
          return;
        }
        i := i + PGSIZE;
      }
      SpendingEnds(m, M(), rn, 0, hi, 1);
      ok := true;
    }

    /** Where freewalk stands in the table `n`: entries below `i` have no table any more. */
    ghost predicate Walking(m: Mem, r: nat, n: Node, i: nat, gone: set<Node>)
      reads this
    {
      && Valid() && Pruned(m, M(), r, gone) && (forall x :: x in gone ==> x.level < n.level) && ROOT !in gone
      && r in spaces && n in spaces[r].tab && spaces[r].leaf == map[]
      && (n.level > 0 ==> forall j :: 0 <= j < i ==> Child(n, j) !in spaces[r].tab)
    }

    /** vm.c:271-287.  Recursively, every table from `n` down becomes a free page, once. */
    method Freewalk(t: nat, ghost r: nat, ghost n: Node) returns (ghost gone: set<Node>)
      requires Valid() && r in spaces && n in spaces[r].tab && t == spaces[r].tab[n] && spaces[r].leaf == map[]
      requires n == ROOT || HasParent(M(), r, n)
      modifies this
      ensures Listed() && Inv(Seen(M(), old(M()), r, n)) && Pruned(old(M()), Seen(M(), old(M()), r, n), r, gone)
      ensures n in gone && forall x :: x in gone ==> x.level <= n.level
      decreases n.level
    {
      ghost var m := M();
      gone := {};
      assert NodeOk(m, r, n) && (n != ROOT ==> n.level < 2);
      forall g: nat ensures PruneAt(m, m, r, {}, g) { assert PageOk(m, g); }
      assert m.spaces[r].tab - {} == m.spaces[r].tab;
      var i := 0;
      while i < ENTRIES
        invariant 0 <= i <= ENTRIES && Walking(m, r, n, i, gone)
      {
        ghost var more := FreeChild(t, i, r, n, m, gone);
        gone := gone + more;
        i := i + 1;
      }
      Drop(t, r, n, m, gone);
      gone := gone + {n};
    }

    /** freewalk's last line. */
    method Drop(t: nat, ghost r: nat, ghost n: Node, ghost m: Mem, ghost gone: set<Node>)
      requires Walking(m, r, n, ENTRIES, gone) && t == spaces[r].tab[n]
      requires n == ROOT || (HasParent(m, r, n) && n.level < 2)
      modifies this
      ensures Listed() && Inv(Seen(M(), m, r, n)) && Pruned(m, Seen(M(), m, r, n), r, gone + {n})
    {
      ghost var w := M();
      if n != ROOT { KeepsParent(m, w, r, n, gone); }
      DropPruned(w, r, n);
      ghost var d := Detach(w, r, n);
      ghost var z := Seen(Free(d, t), w, r, n);
      TableHere(w, r, n);
      PrunedTrans(m, w, z, r, gone, {n});
      Kfree(t * PGSIZE);
      use, spaces := Free(d, t).use, d.spaces;
      assert M() == Free(d, t);
      assert Seen(M(), m, r, n) == z;
    }

    lemma KeepsParent(m: Mem, w: Mem, r: nat, n: Node, gone: set<Node>)
      requires Inv(w) && HasParent(m, r, n) && Pruned(m, w, r, gone) && ROOT !in gone
      requires forall x :: x in gone ==> x.level < n.level
      ensures HasParent(w, r, n) && w.spaces[r].tab[Parent(n)] == m.spaces[r].tab[Parent(n)]
    {
      TableHere(w, r, Parent(n));
    }

    /** One turn of freewalk's loop. */
    method FreeChild(t: nat, i: nat, ghost r: nat, ghost n: Node, ghost m: Mem, ghost gone: set<Node>)
      returns (ghost more: set<Node>)
      requires i < ENTRIES && Walking(m, r, n, i, gone) && t == spaces[r].tab[n]
      modifies this
      ensures Walking(m, r, n, i + 1, gone + more) && t == spaces[r].tab[n]
      decreases n.level, 0
    {
      ghost var w := M();
      more := {};
      assert gone + {} == gone;
      TableHere(w, r, n);
      assert EntryOk(w, r, n, i) && NodeOk(w, r, n);
      var pte := page[t][i];
      TableEntryBits(if n.level > 0 && Child(n, i) in spaces[r].tab then spaces[r].tab[Child(n, i)] else 0);
      if pte % 2 == 1 && (pte / 2) % 8 == 0 {
        ghost var c := Child(n, i);
        ChildParent(n, c, i);
        assert HasParent(w, r, c);
        more := Freewalk(pte / 1024, r, c);
        ghost var y := M();
        assert t in page && |page[t]| == ENTRIES by { assert PageOk(Seen(y, w, r, c), t); }
        page := page[t := Put(page[t], i, 0)];
        assert M() == Seen(y, w, r, c);
        PrunedTrans(m, w, M(), r, gone, more);
      } else {
        assert pte % 2 == 0;   // no "freewalk: leaf"
      }
    }

    /** vm.c:196-205. */
    method Uvmcreate() returns (r: nat)
      requires Valid()
      modifies this
      ensures Valid() && (r == 0 <==> |old(free)| == 0) && (r == 0 ==> M() == old(M()))
      ensures r != 0 ==> r !in old(spaces) && spaces == old(spaces)[r := Space(map[ROOT := r], map[])]
    {
      ghost var m := M();
      if |free| > 0 { LoadedInv(m, Filled(0)); }
      var pa := Kalloc();
      if pa == 0 {
        return 0;
      }
      r := pa / PGSIZE;
      page := page[r := Filled(0)];
      assert M() == Loaded(m, Filled(0));
      ghost var w := NewSpace(M(), r);
      assert r !in spaces by { NotARoot(m, r); }
      NewSpaceInv(M(), r);
      use, spaces := w.use, w.spaces;
      assert M() == w;
    }

    /** vm.c:291-297, for a space with only the `sz` bytes of user memory left.  Every data
        page and every table of it is free afterwards, and nothing else has changed. */
    method Uvmfree(r: nat, sz: nat)
      requires Valid() && r in spaces && sz <= MAXVA
      requires forall v: nat :: v in spaces[r].leaf <==> v < Pages(sz)
      requires forall v: nat :: v < Pages(sz) ==> OwnPage(M(), r, v)
      modifies this
      ensures Valid() && spaces == old(spaces) - {r}
      ensures forall g: nat :: Released(old(M()), M(), r, g)
    {
      ghost var m := M();
      UnmappedNone(m, r, 0, true);
      if sz > 0 {
        Uvmunmap(r, 0, Pages(sz), true);
      }
      ghost var w := M();
      assert spaces[r].leaf == map[] by {
        forall v: nat ensures v !in spaces[r].leaf { assert UnmapEntry(m, w, r, 0, Pages(sz), v); }
      }
      assert SpaceOk(w, r) && NodeOk(w, r, ROOT);
      ghost var gone := Freewalk(r, r, ROOT);
      forall g: nat ensures Released(m, M(), r, g) {
        assert UnmapAt(m, w, r, 0, Pages(sz), true, g) && PruneAt(w, M(), r, gone, g) && UseOk(m, g) && UseOk(M(), g);
      }
    }
  }

  /** The pages of a space that user code may use, by the bit PTE_U. */
  function UserPages(s: Space): UserCopy.Pages {
    map v | v in s.leaf && s.leaf[v] / 16 % 2 == 1 :: s.leaf[v] / 1024
  }

  /** Spaces made by uvmalloc and uvmcopy meet what UserCopy asks for: no page is mapped twice. */
  lemma UserPagesApart(m: Mem, r: nat, v: nat, u: nat)
    requires Inv(m) && r in m.spaces && forall x: nat :: x in UserPages(m.spaces[r]) ==> OwnPage(m, r, x)
    ensures UserCopy.SoleUser(UserPages(m.spaces[r]), v, u)
    ensures v in UserPages(m.spaces[r]) ==> UserPages(m.spaces[r])[v] > 0 && v < MAXVPN
  {
    var pt := UserPages(m.spaces[r]);
    if v in pt { assert OwnPage(m, r, v) && PageOk(m, pt[v]) && LeafOk(m, r, v); }
    if u in pt { assert OwnPage(m, r, u); }
  }

  predicate Between(lo: nat, hi: nat, f: nat) {
    lo <= f < hi
  }

  /** What uvmalloc's callers add to PTE_R and PTE_U: any of PTE_W and PTE_X. */
  predicate XPerm(xperm: nat) {
    xperm == 0 || xperm == 4 || xperm == 8 || xperm == 12
  }

  lemma UserEntry(xperm: nat)
    requires XPerm(xperm)
    ensures Perm(18 + xperm) && Entry(0, 18 + xperm) == 19 + xperm
  {
  }

  /** PGROUNDUP in pages: as few as hold `sz` bytes. */
  function Pages(sz: nat): (n: nat)
    ensures sz <= n * 4096 < sz + 4096
  {
    (sz + PGSIZE - 1) / PGSIZE
  }
}