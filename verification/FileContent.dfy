/** fs.c: balloc, bfree, bmap, itrunc, iupdate, readi and writei, on the blocks of FileBlocks. */
module FileContent {
  import opened Common
  import opened FileBlocks
  import LogDisk

  class Fs {
    var used: seq<bool>         // the free map's bits
    var disk: seq<seq<Byte>>    // the blocks, through the buffer cache and the log
    var inode: seq<Inode>       // in memory
    var dinode: seq<Inode>      // on disk
    ghost var owner: map<nat, Slot>
    ghost const meta: set<nat>      // boot block, log, inodes and free map
    ghost var logged: set<Logged>   // the blocks given to log_write since begin_op

    ghost function V(): View
      reads this
    {
      View(used, disk, inode, owner)
    }

    ghost predicate Valid()
      reads this
    {
      Inv(V()) && |dinode| == |inode| && Settled(owner, meta)
    }

    /** The free map, at the end of every operation, failed or not. */
    lemma Ownership(b: nat)
      requires Valid() && b < |used|
      ensures used[b] <==> b in meta || exists s: Slot :: RefersTo(V(), s, b)
      ensures forall s: Slot, t: Slot :: RefersTo(V(), s, b) && RefersTo(V(), t, b) ==> s == t
      ensures forall s: Slot :: RefersTo(V(), s, b) ==> b !in meta
    {
      UsedOnce(V(), meta, b);
    }

    ghost predicate AllUsed()
      reads this
    {
      forall b :: 0 <= b < |used| ==> used[b]
    }

    /** fs.c:64-88.  The first free block, zeroed; 0, which is never free, when there is none. */
    method Balloc() returns (r: nat)
      requires Valid()
      modifies this`used, this`disk, this`owner, this`logged
      ensures Inv(V()) && if r == 0 then Settled(owner, meta) else SettledBut(owner, meta, r)
      ensures logged == if r == 0 then old(logged) else old(logged) + {MAP(r / BPB), DATA(r)}
      ensures Covered(old(V()), V(), logged)
      ensures r == 0 ==> V() == old(V()) && AllUsed()
      ensures r != 0 ==> r < |old(used)| == |old(disk)| && !old(used)[r] && (forall c :: 0 <= c < r ==> old(used)[c])
      ensures r != 0 ==> V() == Take(old(V()), r) && Loose(V(), r) && Grew(old(V()), V())
    {
      var b := 0;
      while b < |used|
        invariant forall c :: 0 <= c < b && c < |used| ==> used[c]
        decreases |used| - b
      {
        var bi := 0;
        while bi < BPB && b + bi < |used|
          invariant 0 <= bi <= BPB && (b + bi <= |used| || bi == 0)
          invariant forall c :: 0 <= c < b + bi && c < |used| ==> used[c]
        {
          if !used[b + bi] {
            TakeInv(V(), b + bi);
            TakeGrew(V(), b + bi);
            assert BlockOk(V(), b + bi);
            TakeSettled(owner, meta, b + bi);
            ghost var w := Take(V(), b + bi);
            CoveredTake(V(), b + bi, logged + {MAP((b + bi) / BPB), DATA(b + bi)});
            used := used[b + bi := true];
            disk := disk[b + bi := Zeros()];
            owner := w.owner;
            logged := logged + {MAP((b + bi) / BPB), DATA(b + bi)};
            return b + bi;
          }
          bi := bi + 1;
        }
        b := b + BPB;
      }
      CoveredSame(V(), V(), logged);
      return 0;
    }

    /** fs.c:91-105.  Its panic is a precondition: the block is in use. */
    method Bfree(b: nat)
      requires b < |used| && used[b]
      modifies this`used, this`logged
      ensures used == old(used)[b := false] && logged == old(logged) + {MAP(b / BPB)}
      ensures Covered(old(V()), V(), logged)
    {
      used := used[b := false];
      logged := logged + {MAP(b / BPB)};
      CoveredFree(old(V()), V(), b, logged);
    }

    method Iupdate(i: nat)
      requires i < |inode| == |dinode|
      modifies this`dinode, this`logged
      ensures dinode == old(dinode)[i := inode[i]] && logged == old(logged) + {INODES(i / IPB)}
    {
      logged := logged + {INODES(i / IPB)};
      dinode := dinode[i := inode[i]];
    }

    /** The two places of bmap that fill a slot of the inode itself. */
    method AddrSlot(i: nat, k: nat) returns (addr: nat)
      requires Valid() && i < |inode| && k <= NDIRECT && |inode[i].addrs| == NDIRECT + 1
      modifies this`used, this`disk, this`inode, this`owner, this`logged
      ensures Valid() && Grew(old(V()), V()) && |inode[i].addrs| == NDIRECT + 1 && addr == inode[i].addrs[k]
      ensures addr < |disk| && (addr == 0 ==> AllUsed())
      ensures old(inode)[i].addrs[k] != 0 ==> V() == old(V()) && logged == old(logged)
      ensures logged <= old(logged) + {MAP(addr / BPB), DATA(addr)} && (addr == 0 ==> logged == old(logged))
      ensures old(logged) <= logged && Covered(old(V()), V(), logged)
    {
      ghost var v := V();
      CoveredSame(v, v, logged);
      assert forall i': nat, bn: nat :: GrewAt(v, v, i', bn) by { GrewSelf(v); }
      addr := inode[i].addrs[k];
      assert AddrOk(v, i, k) && OwnOk(v, 0);
      if addr == 0 {
        addr := Balloc();
        if addr != 0 {
          ghost var w := V();
          SetAddrInv(w, i, k, addr);
          SetAddrGrew(w, i, k, addr);
          GrewTrans(v, w, SetAddr(w, i, k, addr));
          ghost var x := SetAddr(w, i, k, addr);
          SlotSettled(owner, meta, addr, ADDR(i, k));
          inode := inode[i := inode[i].(addrs := inode[i].addrs[k := addr])];
          owner := x.owner;
          assert V() == x;
          CoveredSame(w, x, logged);
          CoveredTrans(v, w, x, logged, logged);
        }
      }
    }

    /** The end of bmap: entry `j` of the indirect block. */
    method EntrySlot(i: nat, j: nat) returns (addr: nat)
      requires Valid() && i < |inode| && j < NINDIRECT && |inode[i].addrs| == NDIRECT + 1
      requires inode[i].addrs[NDIRECT] != 0
      modifies this`used, this`disk, this`owner, this`logged
      ensures Valid() && Grew(old(V()), V()) && |inode[i].addrs| == NDIRECT + 1 && addr == EntryAt(V(), i, j)
      ensures addr == 0 ==> AllUsed()
      ensures EntryAt(old(V()), i, j) != 0 ==> V() == old(V()) && logged == old(logged)
      ensures logged <= old(logged) + {MAP(addr / BPB), DATA(addr), DATA(inode[i].addrs[NDIRECT])}
      ensures addr == 0 ==> logged == old(logged)
      ensures old(logged) <= logged && Covered(old(V()), V(), logged)
    {
      ghost var v := V();
      GrewSelf(v);
      CoveredSame(v, v, logged);
      var t := inode[i].addrs[NDIRECT];
      assert AddrOk(v, i, NDIRECT) && BlockOk(v, t);
      addr := Word(disk[t], j);
      if addr == 0 {
        addr := Balloc();
        if addr != 0 {
          ghost var w := V();
          TakeInv(v, addr);
          assert SameAddr(v, w, i, NDIRECT + j) && AddrOk(w, i, NDIRECT) && BlockOk(w, t);
          assert NoEntry(w, i, j);
          SetEntryInv(w, i, j, addr);
          SetEntryGrew(w, i, j, addr);
          SetEntryAt(w, i, j, addr, i, NDIRECT + j);
          ghost var x := SetEntry(w, i, j, addr);
          SlotSettled(owner, meta, addr, ENTRY(i, j));
          GrewTrans(v, w, x);
          disk := disk[t := PutWord(disk[t], j, addr)];
          ghost var before := logged;
          logged := logged + {DATA(t)};
          owner := x.owner;
          assert V() == x;
          CoveredBlock(w, x, t, logged);
          CoveredTrans(v, w, x, before, logged);
        }
      }
    }

    /** The two cases of bmap. */
    method FindBlock(i: nat, bn: nat) returns (addr: nat)
      requires Valid() && i < |inode| && bn < MAXFILE
      modifies this`used, this`disk, this`inode, this`owner, this`logged
      ensures Valid() && Grew(old(V()), V())
      ensures addr == 0 ==> AllUsed()
      ensures addr != 0 ==> HasBlock(V(), i, bn) && addr == Addr(V(), i, bn)
      ensures HasBlock(old(V()), i, bn) ==> V() == old(V()) && logged == old(logged) && addr != 0
      ensures Within(V(), i, bn, bn + 1, logged - old(logged))
      ensures old(logged) <= logged && Covered(old(V()), V(), logged)
    {
      assert InodeOk(V(), i);
      if bn < NDIRECT {
        addr := AddrSlot(i, bn);
        assert addr != 0 ==> Refers(V(), i, bn, addr);
        return;
      }
      var t := AddrSlot(i, NDIRECT);
      if t == 0 {
        return 0;
      }
      ghost var w, before := V(), logged;
      addr := EntrySlot(i, bn - NDIRECT);
      GrewTrans(old(V()), w, V());
      CoveredTrans(old(V()), w, V(), before, logged);
      assert AddrOk(V(), i, NDIRECT) && inode[i].addrs[NDIRECT] == t;
      if addr != 0 {
        AddrOwned(V(), i, bn);
        assert Refers(V(), i, bn, addr);
      }
    }

    /** fs.c:382-421.  It finds block `bn` of file `i`, or adds one; no contents change.  It
        fails only when no block is free, perhaps with an empty indirect block added. */
    method Bmap(i: nat, bn: nat) returns (addr: nat)
      requires Valid() && i < |inode| && bn < MAXFILE
      modifies this`used, this`disk, this`inode, this`owner, this`logged
      ensures Valid() && Grew(old(V()), V())
      ensures forall j :: 0 <= j < |inode| ==> Content(V(), j) == Content(old(V()), j)
      ensures addr == 0 ==> AllUsed()
      ensures addr != 0 ==> HasBlock(V(), i, bn) && addr == Addr(V(), i, bn)
      ensures HasBlock(old(V()), i, bn) ==> V() == old(V()) && logged == old(logged) && addr != 0
      ensures Within(V(), i, bn, bn + 1, logged - old(logged))
      ensures old(logged) <= logged && Covered(old(V()), V(), logged)
    {
      addr := FindBlock(i, bn);
      forall j | 0 <= j < |inode| ensures Content(V(), j) == Content(old(V()), j) { GrewContent(old(V()), V(), j); }
    }

    /** The block for the next part of `src` in writei's loop. */
    method PartBlock(i: nat, src: seq<Byte>, off: nat, tot: nat, ghost v: View) returns (addr: nat)
      requires Valid() && i < |inode| && tot < |src| && off + |src| <= MAXFILE * BSIZE
      requires Wrote(v, V(), i, off, src, tot)
      modifies this`used, this`disk, this`inode, this`owner, this`logged
      ensures Valid() && Wrote(v, V(), i, off, src, tot) && AddrsStay(old(V()), V(), i)
      ensures addr == 0 ==> AllUsed() && off + tot >= inode[i].size
      ensures addr != 0 ==> HasBlock(V(), i, (off + tot) / BSIZE) && addr == Addr(V(), i, (off + tot) / BSIZE)
      ensures Within(V(), i, (off + tot) / BSIZE, (off + tot) / BSIZE + 1, logged - old(logged))
      ensures old(logged) <= logged && Covered(old(V()), V(), logged)
    {
      ghost var w := V();
      if off + tot < w.inode[i].size { DataBlock(w, i, (off + tot) / BSIZE); }
      addr := Bmap(i, (off + tot) / BSIZE);
      WroteGrew(v, w, V(), i, off, src, tot);
      GrewStays(w, V(), i);
    }

    /** One turn of writei's loop: the part of `src` from `tot` on that goes into one block. */
    method WritePart(i: nat, src: seq<Byte>, off: nat, tot: nat, ghost v: View) returns (m: nat)
      requires Valid() && i < |inode| && tot < |src| && off + |src| <= MAXFILE * BSIZE
      requires Wrote(v, V(), i, off, src, tot)
      modifies this`used, this`disk, this`inode, this`owner, this`logged
      ensures Valid() && tot + m <= |src| && Wrote(v, V(), i, off, src, tot + m)
      ensures m == 0 ==> AllUsed() && off + tot >= inode[i].size
      ensures m > 0 ==> tot + m == |src| || (off + tot + m) % BSIZE == 0
      ensures AddrsStay(old(V()), V(), i)
      ensures Within(V(), i, (off + tot) / BSIZE, (off + tot) / BSIZE + 1, logged - old(logged))
      ensures old(logged) <= logged && Covered(old(V()), V(), logged)
    {
      ghost var w := V();
      ghost var bn := (off + tot) / BSIZE;
      var addr := PartBlock(i, src, off, tot, v);
      if addr == 0 {
        return 0;
      }
      ghost var x := V();
      assert BlockOk(x, addr);
      var at := (off + tot) % BSIZE;
      m := if |src| - tot < BSIZE - at then |src| - tot else BSIZE - at;
      NextBlock(off + tot, m);
      ghost var block := Blit(disk[addr], at, src, tot, m);
      WroteBlit(v, x, i, off, src, tot, m, tot + m);
      StoreInv(x, i, bn, block);
      StoreStays(x, i, bn, block);
      disk := disk[addr := Blit(disk[addr], at, src, tot, m)];
      assert V() == Store(x, i, bn, block);
      StaysTrans(w, x, V(), i);
      WithinStays(x, V(), i, bn, bn + 1, bn, bn + 1, logged - old(logged));
      assert AddrStays(x, V(), i, bn);
      ghost var before := logged;
      logged := logged + {DATA(addr)};
      CoveredBlock(x, V(), addr, logged);
      CoveredTrans(w, x, V(), before, logged);
    }

    /** fs.c:505-539, when either_copyin succeeds.  The file is as before with the first `r`
        bytes of `src` at `off`; `r` is short only when the disk is full, only at the end of a
        block, and never within the blocks that the file has; the inode is saved.
        It logs every block that it changes, and only blocks of the range, their indirect block,
        the free map and the inode. */
    method Writei(i: nat, src: seq<Byte>, off: nat) returns (r: int)
      requires Valid() && i < |inode| && off < WORD && |src| < WORD
      modifies this
      ensures Valid() && |inode| == |old(inode)| && |used| == |old(used)|
      ensures r == -1 <==> off > old(inode)[i].size || off + |src| > MAXFILE * BSIZE
      ensures r == -1 ==> V() == old(V()) && dinode == old(dinode) && logged == old(logged)
      ensures r != -1 ==> 0 <= r <= |src| && Content(V(), i) == Spliced(Content(old(V()), i), off, src[..r])
      ensures r != -1 ==> dinode == old(dinode)[i := inode[i]]
      ensures 0 <= r < |src| ==> AllUsed() && off + r >= old(inode)[i].size
      ensures 0 < r < |src| ==> (off + r) % BSIZE == 0
      ensures off + |src| <= old(inode)[i].size ==> r == |src|
      ensures forall j :: 0 <= j < |inode| && j != i ==> Content(V(), j) == Content(old(V()), j)
      ensures r != -1 ==> Within(V(), i, off / BSIZE, BlocksEnd(off, |src|), logged - old(logged))
      ensures old(logged) <= logged && Covered(old(V()), V(), logged)
      ensures InodesCovered(old(dinode), dinode, logged)
    {
      ghost var v := V();
      CoveredSame(v, v, logged);
      assert InodeOk(v, i);
      Wraps(off, |src|);
      var end := (off + |src|) % WORD;
      if off > inode[i].size || end < off {
        return -1;
      }
      if end > MAXFILE * BSIZE {
        return -1;
      }
      var tot := WriteAll(i, src, off);
      WroteContent(v, V(), i, off, src, tot);
      ghost var w := V();
      ghost var x := Resize(w, i, if off + tot > inode[i].size then off + tot else inode[i].size);
      ResizeStays(w, i, x.inode[i].size);
      if off + tot > inode[i].size {
        inode := inode[i := inode[i].(size := off + tot)];
      }
      assert V() == x;
      WithinStays(w, x, i, off / BSIZE, BlocksEnd(off, |src|), off / BSIZE, BlocksEnd(off, |src|),
          logged - old(logged));
      ghost var before := logged;
      Iupdate(i);
      CoveredSame(w, V(), logged);
      CoveredTrans(v, w, V(), before, logged);
      r := tot;
    }

    /** writei's loop. */
    method WriteAll(i: nat, src: seq<Byte>, off: nat) returns (tot: nat)
      requires Valid() && i < |inode| && off + |src| <= MAXFILE * BSIZE
      modifies this`used, this`disk, this`inode, this`owner, this`logged
      ensures Valid() && tot <= |src| && Wrote(old(V()), V(), i, off, src, tot) && |used| == |old(used)|
      ensures tot < |src| ==> AllUsed() && off + tot >= old(inode)[i].size
      ensures tot < |src| ==> tot == 0 || (off + tot) % BSIZE == 0
      ensures Within(V(), i, off / BSIZE, BlocksEnd(off, |src|), logged - old(logged))
      ensures old(logged) <= logged && Covered(old(V()), V(), logged)
    {
      ghost var v, lo, hi, base := V(), off / BSIZE, BlocksEnd(off, |src|), logged;
      GrewSelf(v);
      CoveredSame(v, v, logged);
      tot := 0;
      while tot < |src|
        invariant tot <= |src| && Valid() && Wrote(v, V(), i, off, src, tot) && |used| == |v.used|
        invariant Within(V(), i, lo, hi, logged - base) && base <= logged && Covered(v, V(), logged)
        invariant tot == 0 || tot == |src| || (off + tot) % BSIZE == 0
      {
        ghost var w, before, bn := V(), logged, (off + tot) / BSIZE;
        var m := WritePart(i, src, off, tot, v);
        CoveredTrans(v, w, V(), before, logged);
        WithinStays(w, V(), i, lo, hi, lo, hi, before - base);
        assert lo <= bn < hi;
        WithinWider(V(), i, bn, bn + 1, lo, hi, logged - before);
        WithinUnion(V(), i, lo, hi, logged, before, base);
        if m == 0 {
          break;
        }
        tot := tot + m;
      }
    }

    /** One transaction of filewrite: begin_op, writei, end_op.  It logs every block that it changes,
        and at most seven blocks with a free map of one block. */
    method WriteChunk(i: nat, src: seq<Byte>, off: nat) returns (r: int)
      requires Valid() && i < |inode| && off < WORD && |src| <= CHUNK && |used| <= BPB
      modifies this
      ensures Valid() && |inode| == |old(inode)| && |used| == |old(used)| && |logged| <= LogDisk.MAXOPBLOCKS - 3
      ensures r == -1 <==> off > old(inode)[i].size || off + |src| > MAXFILE * BSIZE
      ensures r == -1 ==> V() == old(V())
      ensures 0 <= r < |src| ==> AllUsed()
      ensures r != -1 ==> 0 <= r <= |src| && Content(V(), i) == Spliced(Content(old(V()), i), off, src[..r])
      ensures forall j: nat :: SameFile(old(V()), V(), i, j)
      ensures Covered(old(V()), V(), logged) && InodesCovered(old(dinode), dinode, logged)
    {
      logged := {};
      r := Writei(i, src, off);
      assert logged - {} == logged;
      assert InodeOk(V(), i);
      if r != -1 { BudgetSize(V(), i, off / BSIZE, BlocksEnd(off, |src|), logged); }
    }

    /** What filewrite's loop keeps. */
    ghost predicate Progress(v: View, i: nat, src: seq<Byte>, off0: nat, k: nat)
      reads this
    {
      Valid() && |used| <= BPB && Prefixed(v, V(), i, src, off0, k)
    }

    /** The transaction of one turn of filewrite's loop, which writes `n1` bytes of `src`. */
    method WritePiece(i: nat, src: seq<Byte>, off0: nat, k: nat, n1: nat, ghost v: View) returns (r: int, ghost k1: nat)
      requires Progress(v, i, src, off0, k) && k + n1 <= |src| && n1 <= CHUNK && off0 + k < WORD
      modifies this
      ensures -1 <= r <= n1 && |logged| <= LogDisk.MAXOPBLOCKS - 3
      ensures k1 == (if r > 0 then k + r else k) && Progress(v, i, src, off0, k1)
      ensures r == -1 <==> off0 > |Content(v, i)| || off0 + k + n1 > MAXFILE * BSIZE
      ensures 0 <= r < n1 ==> AllUsed()
    {
      ghost var w := V();
      var part := src[k..k + n1];
      PrefixedSize(v, w, i, src, off0, k);
      r := WriteChunk(i, part, off0 + k);
      k1 := k;
      if r != -1 {
        k1 := k + r;
        PrefixedMore(v, w, V(), i, src, off0, k, r, part);
      }
    }

    /** One turn of filewrite's loop. */
    method WriteNext(i: nat, src: seq<Byte>, off0: nat, k: nat, ghost v: View) returns (r: int, n1: nat, ghost k1: nat)
      requires Progress(v, i, src, off0, k) && k < |src| && off0 + k < WORD
      requires Due(|Content(v, i)|, off0, |src|, k)
      modifies this
      ensures -1 <= r <= n1 <= |src| - k && 0 < n1 && |logged| <= LogDisk.MAXOPBLOCKS - 3
      ensures k1 == (if r > 0 then k + r else k) && off0 + k1 < WORD && Progress(v, i, src, off0, k1)
      ensures if r == n1 then Due(|Content(v, i)|, off0, |src|, k1)
              else Ended(|Content(v, i)|, off0, |src|, k1, AllUsed())
    {
      n1 := if |src| - k > CHUNK then CHUNK else |src| - k;
      assert InodeOk(v, i);
      ReachNext(|Content(v, i)|, off0, |src|, k, n1);
      r, k1 := WritePiece(i, src, off0, k, n1, v);
    }

    /** file.c:148-175; `off` is f->off, `v` is the state before.  The file has the first `n`
        bytes of `src` at the old offset.  These are all the bytes of the chunks that fit, unless
        the disk is full, and all of `src` unless filewrite returns -1. */
    method Filewrite(i: nat, src: seq<Byte>, off0: nat, ghost v: View) returns (ret: int, off: nat, ghost n: nat)
      requires Valid() && i < |inode| && off0 < WORD && |used| <= BPB && v == V()
      modifies this
      ensures off == off0 + n && ret == (if n == |src| then |src| else -1)
      ensures Progress(v, i, src, off0, n) && Ended(|Content(v, i)|, off0, |src|, n, AllUsed())
    {
      off := off0;
      var k := 0;
      NoPrefix(v, i, src, off0);
      ReachFrom(|Content(v, i)|, off0, |src|);
      while k < |src|
        invariant off == off0 + k < WORD && Progress(v, i, src, off0, k) && Due(|Content(v, i)|, off0, |src|, k)
        decreases |src| - k
      {
        var r, n1;
        ghost var k1;
        r, n1, k1 := WriteNext(i, src, off0, k, v);
        if r > 0 {
          off := off + r;
          k := k + r;
        }
        assert k == k1;
        if r != n1 {
          break;
        }
      }
      n := k;
      ret := if k == |src| then |src| else -1;
    }

    /** One turn of readi's loop: up to `left` bytes, as far as the block goes. */
    method ReadPart(i: nat, at: nat, left: nat) returns (bytes: seq<Byte>)
      requires Valid() && i < |inode| && left > 0 && at + left <= inode[i].size
      modifies this`used, this`disk, this`inode, this`owner, this`logged
      ensures V() == old(V()) && logged == old(logged) && 0 < |bytes| <= left
      ensures forall k :: 0 <= k < |bytes| ==> bytes[k] == Content(V(), i)[at + k]
    {
      var m := if left < BSIZE - at % BSIZE then left else BSIZE - at % BSIZE;
      PartOfFile(V(), i, at, m);
      ghost var v := V();
      var addr := Bmap(i, at / BSIZE);
      bytes := disk[addr][at % BSIZE..at % BSIZE + m];
      assert bytes == Part(v, i, at, m);
    }

    /** fs.c:471-496, when either_copyout succeeds.  Exactly the bytes of the range that the
        file has; nothing is allocated and nothing logged. */
    method Readi(i: nat, off: nat, n: nat) returns (dst: seq<Byte>)
      requires Valid() && i < |inode| && off < WORD && n < WORD
      modifies this`used, this`disk, this`inode, this`owner, this`logged
      ensures V() == old(V()) && logged == old(logged) && |dst| == Readable(inode[i].size, off, n)
      ensures forall k :: 0 <= k < |dst| ==> dst[k] == Content(V(), i)[off + k]
    {
      ghost var v := V();
      ghost var s := Content(v, i);
      assert InodeOk(v, i);
      Wraps(off, n);
      var end := (off + n) % WORD;
      if off > inode[i].size || end < off {
        return [];
      }
      var len := if end > inode[i].size then inode[i].size - off else n;
      dst := [];
      while |dst| < len
        invariant |dst| <= len && V() == v && logged == old(logged)
        invariant forall k :: 0 <= k < |dst| ==> dst[k] == s[off + k]
        decreases len - |dst|
      {
        var bytes := ReadPart(i, off + |dst|, len - |dst|);
        dst := dst + bytes;
      }
    }

    /** The first loop of itrunc. */
    method FreeDirect(i: nat)
      requires Valid() && i < |inode|
      modifies this`used, this`inode, this`logged
      ensures Freed(old(V()), used, i, NDIRECT, 0, false) && |old(inode)[i].addrs| == NDIRECT + 1
      ensures |inode| == |old(inode)| && inode == old(inode)[i := inode[i]] && |inode[i].addrs| == NDIRECT + 1
      ensures inode[i].size == old(inode)[i].size
      ensures inode[i].addrs[NDIRECT] == old(inode)[i].addrs[NDIRECT]
      ensures forall k :: 0 <= k < NDIRECT ==> inode[i].addrs[k] == 0
      ensures old(logged) <= logged && Covered(old(V()), V(), logged)
    {
      ghost var v := V();
      CoveredSame(v, v, logged);
      assert InodeOk(v, i);
      forall b: nat ensures FreedAt(v, used, i, 0, 0, false, b) {}
      var k := 0;
      while k < NDIRECT
        invariant 0 <= k <= NDIRECT && Freed(v, used, i, k, 0, false)
        invariant old(logged) <= logged && Covered(v, V(), logged)
        invariant |inode| == |v.inode| && inode == v.inode[i := inode[i]] && |inode[i].addrs| == NDIRECT + 1
        invariant inode[i].size == v.inode[i].size
        invariant forall m :: 0 <= m <= NDIRECT ==> inode[i].addrs[m] == if m < k then 0 else v.inode[i].addrs[m]
      {
        FreedDirect(v, used, i, k, k + 1);
        if inode[i].addrs[k] != 0 {
          ghost var w, before := V(), logged;
          Bfree(inode[i].addrs[k]);
          CoveredTrans(v, w, V(), before, logged);
          ghost var x := V();
          inode := inode[i := inode[i].(addrs := inode[i].addrs[k := 0])];
          CoveredSame(x, V(), logged);
          CoveredTrans(v, x, V(), logged, logged);
        }
        k := k + 1;
      }
    }

    /** The second part of itrunc: the blocks that the indirect block `t` names. */
    method FreeEntries(i: nat, t: nat, ghost v: View)
      requires Inv(v) && i < |v.inode| && |v.inode[i].addrs| == NDIRECT + 1 && t == v.inode[i].addrs[NDIRECT] != 0
      requires disk == v.disk && Freed(v, used, i, NDIRECT, 0, false)
      modifies this`used, this`logged
      ensures Freed(v, used, i, NDIRECT, NINDIRECT, false)
      ensures old(logged) <= logged && Covered(old(V()), V(), logged)
    {
      ghost var m := V();
      CoveredSame(m, m, logged);
      assert AddrOk(v, i, NDIRECT) && BlockOk(v, t);
      var j := 0;
      while j < NINDIRECT
        invariant 0 <= j <= NINDIRECT && Freed(v, used, i, NDIRECT, j, false)
        invariant old(logged) <= logged && Covered(m, V(), logged)
      {
        FreedEntry(v, used, i, j, j + 1);
        var b := Word(disk[t], j);
        if b != 0 {
          ghost var w, before := V(), logged;
          Bfree(b);
          CoveredTrans(m, w, V(), before, logged);
        }
        j := j + 1;
      }
    }

    /** itrunc up to the size: the blocks, their addresses, and the indirect block. */
    method FreeBlocks(i: nat)
      requires Valid() && i < |inode|
      modifies this`used, this`inode, this`logged
      ensures used == Truncated(old(V()), i).used && |inode| == |old(inode)|
      ensures inode == old(inode)[i := Inode(old(inode)[i].size, NoAddrs())]
      ensures old(logged) <= logged && Covered(old(V()), V(), logged)
    {
      ghost var v := V();
      FreeDirect(i);
      var t := inode[i].addrs[NDIRECT];
      ghost var j := 0;
      if t != 0 {
        ghost var w, before := V(), logged;
        FreeEntries(i, t, v);
        CoveredTrans(v, w, V(), before, logged);
        j := NINDIRECT;
      }
      FreedIndirect(v, used, i, j);
      if t != 0 {
        ghost var w, before := V(), logged;
        Bfree(t);
        CoveredTrans(v, w, V(), before, logged);
        ghost var x := V();
        inode := inode[i := inode[i].(addrs := inode[i].addrs[NDIRECT := 0])];
        CoveredSame(x, V(), logged);
        CoveredTrans(v, x, V(), logged, logged);
      }
      assert inode[i].addrs == NoAddrs();
    }

    /** fs.c:425-453.  The file is empty and its blocks are free, each freed once; the other
        files have not changed; the inode is saved; every changed block is logged. */
    method Itrunc(i: nat)
      requires Valid() && i < |inode|
      modifies this
      ensures Valid() && V() == Truncated(old(V()), i) && dinode == old(dinode)[i := inode[i]]
      ensures Content(V(), i) == []
      ensures forall j :: 0 <= j < |old(inode)| && j != i ==> Content(V(), j) == Content(old(V()), j)
      ensures old(logged) <= logged && Covered(old(V()), V(), logged) && InodesCovered(old(dinode), dinode, logged)
    {
      ghost var v := V();
      TruncatedInv(v, i);
      TruncatedSettled(v, i, meta);
      FreeBlocks(i);
      ghost var w, before := V(), logged;
      inode := inode[i := inode[i].(size := 0)];
      owner := Truncated(v, i).owner;
      assert V() == Truncated(v, i);
      Iupdate(i);
      CoveredSame(w, V(), logged);
      CoveredTrans(v, w, V(), before, logged);
    }
  }

  const CHUNK: nat := 3072

  /** filewrite's max: half of the blocks that are left beside inode, indirect block and slop. */
  lemma ChunkIs()
    ensures CHUNK == (LogDisk.MAXOPBLOCKS - 1 - 1 - 2) / 2 * BSIZE
  {
  }

  /** How much of `len` bytes at `off` filewrite's chunks cover: nothing beyond the end of the
      file, and no chunk that would pass the largest file. */
  function Reach(size: nat, off: nat, len: nat): nat {
    if off > size then 0
    else if off + len <= MAXFILE * BSIZE then len
    else if off > MAXFILE * BSIZE then 0
    else (MAXFILE * BSIZE - off) / CHUNK * CHUNK
  }

  /** What whole chunks fit into `x` bytes. */
  lemma WholeChunks(x: nat)
    ensures x / CHUNK * CHUNK <= x < x / CHUNK * CHUNK + CHUNK && x / CHUNK * CHUNK % CHUNK == 0
  {
    assert x / 3072 * 3072 % 3072 == 0;
  }

  lemma NextChunk(a: nat, b: nat)
    requires a % CHUNK == 0 && b % CHUNK == 0 && a < b
    ensures a + CHUNK <= b && (a + CHUNK) % CHUNK == 0
  {
  }

  lemma AddChunk(k: nat)
    requires k % CHUNK == 0
    ensures (k + CHUNK) % CHUNK == 0
  {
  }

  /** filewrite has come as far as `k`, at the start of a chunk. */
  predicate Due(size: nat, off: nat, len: nat, k: nat) {
    k <= Reach(size, off, len) && (k % CHUNK == 0 || k == len)
  }

  /** It has written all that it can, or the disk is full. */
  predicate Ended(size: nat, off: nat, len: nat, k: nat, full: bool) {
    k <= Reach(size, off, len) && (k < Reach(size, off, len) ==> full)
  }

  lemma ReachFrom(size: nat, off: nat, len: nat)
    ensures Due(size, off, len, 0) && Reach(size, off, len) <= len
    ensures Reach(size, off, len) == len || Reach(size, off, len) % CHUNK == 0
  {
    if off <= MAXFILE * BSIZE { WholeChunks(MAXFILE * BSIZE - off); }
    assert 0 % CHUNK == 0;
  }

  /** A chunk is refused exactly when what can be reached has been written. */
  lemma ReachNext(size: nat, off: nat, len: nat, k: nat, n1: nat)
    requires k < len && Due(size, off, len, k) && size <= MAXFILE * BSIZE
    requires n1 == if len - k > CHUNK then CHUNK else len - k
    ensures if off > size || off + k + n1 > MAXFILE * BSIZE then Reach(size, off, len) == k
            else Due(size, off, len, k + n1)
  {
    var r := Reach(size, off, len);
    ReachFrom(size, off, len);
    if off <= size {
      WholeChunks(MAXFILE * BSIZE - off);
      if r % CHUNK == 0 && k < r { NextChunk(k, r); }
      AddChunk(k);
    }
  }

  /** `s` with the first `k` bytes of `src` at `off`, which filewrite leaves alone when `off`
      is beyond the end. */
  function WithPrefix(s: seq<Byte>, off: nat, src: seq<Byte>, k: nat): seq<Byte>
    requires k <= |src|
  {
    if off <= |s| then Spliced(s, off, src[..k]) else s
  }

  predicate SameFile(v: View, w: View, i: nat, j: nat)
    requires Inv(v) && Inv(w)
  {
    j < |v.inode| && j < |w.inode| && j != i ==> Content(w, j) == Content(v, j)
  }

  /** `w` is `v` with the first `k` bytes of `src` at `off` of file `i`, and nothing else. */
  ghost predicate Prefixed(v: View, w: View, i: nat, src: seq<Byte>, off: nat, k: nat) {
    && Inv(v) && Inv(w) && i < |v.inode| == |w.inode| && k <= |src|
    && Content(w, i) == WithPrefix(Content(v, i), off, src, k) && (off > |Content(v, i)| ==> k == 0)
    && forall j: nat :: SameFile(v, w, i, j)
  }

  lemma NoPrefix(v: View, i: nat, src: seq<Byte>, off: nat)
    requires Inv(v) && i < |v.inode|
    ensures Prefixed(v, v, i, src, off, 0) && |Content(v, i)| <= MAXFILE * BSIZE
  {
    assert InodeOk(v, i);
    assert off <= |Content(v, i)| ==> Spliced(Content(v, i), off, []) == Content(v, i);
  }

  /** The next chunk goes inside the file just when the first one did. */
  lemma PrefixedSize(v: View, w: View, i: nat, src: seq<Byte>, off: nat, k: nat)
    requires Prefixed(v, w, i, src, off, k)
    ensures off + k > w.inode[i].size <==> off > |Content(v, i)|
  {
    assert |Content(w, i)| == w.inode[i].size;
  }

  lemma PrefixedMore(v: View, w: View, x: View, i: nat, src: seq<Byte>, off: nat, k: nat, r: nat, part: seq<Byte>)
    requires Prefixed(v, w, i, src, off, k) && Inv(x) && |x.inode| == |w.inode|
    requires r <= |part| && k + |part| <= |src| && part == src[k..k + |part|] && off + k <= w.inode[i].size
    requires Content(x, i) == Spliced(Content(w, i), off + k, part[..r])
    requires forall j: nat :: SameFile(w, x, i, j)
    ensures Prefixed(v, x, i, src, off, k + r) && off <= |Content(v, i)|
  {
    PrefixedSize(v, w, i, src, off, k);
    forall j: nat ensures SameFile(v, x, i, j) { assert SameFile(v, w, i, j) && SameFile(w, x, i, j); }
    SplicedOn(Content(v, i), Content(w, i), Content(x, i), off, src, k, r, part);
  }

  lemma SplicedOn(s: seq<Byte>, t: seq<Byte>, u: seq<Byte>, off: nat, src: seq<Byte>, k: nat, r: nat, part: seq<Byte>)
    requires r <= |part| && k + |part| <= |src| && part == src[k..k + |part|] && off <= |s| && off + k <= |t|
    requires t == WithPrefix(s, off, src, k) && u == Spliced(t, off + k, part[..r])
    ensures u == WithPrefix(s, off, src, k + r)
  {
    SplicedTwice(s, off, src, k, r, |part|);
  }

  lemma SplicedTwice(s: seq<Byte>, off: nat, src: seq<Byte>, k: nat, r: nat, n: nat)
    requires k + n <= |src| && r <= n
    ensures off <= |s| ==> off + k <= |Spliced(s, off, src[..k])|
    ensures off <= |s| ==>
              Spliced(Spliced(s, off, src[..k]), off + k, src[k..k + n][..r]) == WithPrefix(s, off, src, k + r)
  {
    assert src[..k] + src[k..k + n][..r] == src[..k + r];
  }

  lemma NextBlock(a: nat, m: nat)
    ensures m == BSIZE - a % BSIZE ==> (a + m) % BSIZE == 0
  {
  }

  /** The number after the last block that `n` bytes at `off` touch. */
  function BlocksEnd(off: nat, n: nat): nat {
    if n == 0 then off / BSIZE else (off + n - 1) / BSIZE + 1
  }

  /** The overflow test `off + n < off` of 32-bit words. */
  lemma Wraps(off: nat, n: nat)
    requires off < WORD && n < WORD
    ensures (off + n) % WORD == if off + n < WORD then off + n else off + n - WORD
  {
  }

  lemma GrewSelf(v: View)
    requires Inv(v)
    ensures Grew(v, v)
  {
    forall i: nat ensures TopStays(v, v, i) {}
    forall i: nat, bn: nat ensures GrewAt(v, v, i, bn) {
      if i < |v.inode| && |v.inode[i].addrs| == NDIRECT + 1 && bn < MAXFILE && Addr(v, i, bn) != 0 {
        AddrOwned(v, i, bn);
      }
    }
  }
}