/** vm.c: walkaddr, copyout and copyin, which split a user range at page boundaries.  They
    are proved against the flat view of an address space, byte by byte. */
module UserCopy {
  import opened Common

  const PGSIZE := 4096
  const MAXVA := 0x40_0000_0000

  /** The pages that walkaddr finds: valid and with PTE_U, by virtual page number. */
  type Pages = map<nat, nat>

  type Frames = map<nat, seq<Byte>>

  predicate PageOk(pt: Pages, mem: Frames, v: nat) {
    v in pt ==> pt[v] > 0 && pt[v] in mem && |mem[pt[v]]| == PGSIZE && v < MAXVA / PGSIZE
  }

  predicate SoleUser(pt: Pages, v: nat, u: nat) {
    v in pt && u in pt && pt[v] == pt[u] ==> v == u
  }

  /** No physical page is mapped twice. */
  ghost predicate Mapped(pt: Pages, mem: Frames) {
    && (forall v: nat :: PageOk(pt, mem, v))
    && (forall v: nat, u: nat :: SoleUser(pt, v, u))
  }

  /** The byte of the address space at `va`. */
  function At(pt: Pages, mem: Frames, va: nat): Byte
    requires Mapped(pt, mem) && va / PGSIZE in pt
  {
    assert PageOk(pt, mem, va / PGSIZE);
    mem[pt[va / PGSIZE]][va % PGSIZE]
  }

  predicate ByteSet(pt: Pages, m: Frames, w: Frames, dst: nat, src: seq<Byte>, n: nat, va: nat)
    requires Mapped(pt, m) && Mapped(pt, w) && n <= |src|
  {
    va / PGSIZE in pt ==> At(pt, w, va) == if dst <= va < dst + n then src[va - dst] else At(pt, m, va)
  }

  predicate FrameKept(pt: Pages, m: Frames, w: Frames, f: nat) {
    f in m && f !in pt.Values ==> f in w && w[f] == m[f]
  }

  /** The first `n` bytes of `src` are at `dst` on; every other user byte, and every page that
      is not the user's, is as before. */
  ghost predicate Stored(pt: Pages, m: Frames, w: Frames, dst: nat, src: seq<Byte>, n: nat) {
    && Mapped(pt, m) && Mapped(pt, w) && n <= |src|
    && (forall va: nat :: ByteSet(pt, m, w, dst, src, n, va))
    && (forall f: nat :: FrameKept(pt, m, w, f))
  }

  /** The whole range is mapped. */
  ghost predicate Covers(pt: Pages, va: nat, n: nat) {
    forall a: nat :: va <= a < va + n ==> a / PGSIZE in pt
  }

  /** vm.c:108-126: the physical page of `va`, or 0. */
  function Walkaddr(pt: Pages, va: nat): (f: nat)
    ensures (forall v: nat :: v in pt ==> pt[v] > 0 && v < MAXVA / PGSIZE) ==> (f != 0 <==> va / PGSIZE in pt)
  {
    if va >= MAXVA then 0 else if va / PGSIZE in pt then pt[va / PGSIZE] else 0
  }

  lemma BlitStored(pt: Pages, m: Frames, w: Frames, dst: nat, src: seq<Byte>, i: nat, n: nat, f: nat)
    requires Stored(pt, m, w, dst, src, i) && i + n <= |src| && (dst + i) / PGSIZE in pt && f == pt[(dst + i) / PGSIZE]
    requires (dst + i) % PGSIZE + n <= PGSIZE
    ensures f in w && |w[f]| == PGSIZE
    ensures Stored(pt, m, w[f := Blit(w[f], (dst + i) % PGSIZE, src, i, n)], dst, src, i + n)
  {
    var v := (dst + i) / PGSIZE;
    assert PageOk(pt, w, v);
    var x := w[f := Blit(w[f], (dst + i) % PGSIZE, src, i, n)];
    forall u: nat ensures PageOk(pt, x, u) { assert PageOk(pt, w, u); }
    assert Mapped(pt, x);
    var j := i + n;
    forall va: nat ensures ByteSet(pt, m, x, dst, src, j, va) {
      assert ByteSet(pt, m, w, dst, src, i, va) && SoleUser(pt, va / PGSIZE, v);
    }
    forall g: nat ensures FrameKept(pt, m, x, g) { assert FrameKept(pt, m, w, g); }
  }

  class AddressSpace {
    const pt: Pages
    var mem: Frames

    ghost predicate Valid()
      reads this
    {
      Mapped(pt, mem)
    }

    /** vm.c:351-371.  All bytes are stored, or those before the first page that is not
        mapped: `n` bytes, which end at a page boundary. */
    method Copyout(dst: nat, src: seq<Byte>) returns (ok: bool, ghost n: nat)
      requires Valid()
      modifies this`mem
      ensures Valid() && Stored(pt, old(mem), mem, dst, src, n) && Covers(pt, dst, n)
      ensures ok ==> n == |src|
      ensures !ok ==> n < |src| && (dst + n) / PGSIZE !in pt && (n == 0 || (dst + n) % PGSIZE == 0)
    {
      ghost var m := mem;
      var i := 0;
      n := 0;
      while i < |src|
        invariant i <= |src| && n == i && Valid() && Stored(pt, m, mem, dst, src, i) && Covers(pt, dst, i)
        invariant i == 0 || i == |src| || (dst + i) % PGSIZE == 0
      {
        var dstva := dst + i;
        var va0 := dstva / PGSIZE * PGSIZE;
        assert va0 / PGSIZE == dstva / PGSIZE && PageOk(pt, mem, dstva / PGSIZE);
        forall v: nat | v in pt ensures pt[v] > 0 && v < MAXVA / PGSIZE { assert PageOk(pt, mem, v); }
        var f := Walkaddr(pt, va0);
        if f == 0 {
          return false, i;
        }
        var k := PGSIZE - (dstva - va0);
        if k > |src| - i {
          k := |src| - i;
        }
        BlitStored(pt, m, mem, dst, src, i, k, f);
        forall a: nat | dst <= a < dst + (i + k) ensures a / PGSIZE in pt {
          assert a < dst + i || a / PGSIZE == dstva / PGSIZE;
        }
        mem := mem[f := Blit(mem[f], dstva - va0, src, i, k)];
        i := i + k;
        n := i;
      }
      ok := true;
    }

    /** vm.c:376-396.  On success exactly the bytes of the range, in order; on failure some
        byte of it is not mapped. */
    method Copyin(src: nat, len: nat) returns (ok: bool, dst: seq<Byte>)
      requires Valid()
      ensures ok <==> Covers(pt, src, len)
      ensures ok ==> |dst| == len && forall k :: 0 <= k < len ==> dst[k] == At(pt, mem, src + k)
    {
      dst := [];
      while |dst| < len
        invariant |dst| <= len && Covers(pt, src, |dst|)
        invariant forall k :: 0 <= k < |dst| ==> dst[k] == At(pt, mem, src + k)
        decreases len - |dst|
      {
        var srcva := src + |dst|;
        var va0 := srcva / PGSIZE * PGSIZE;
        assert va0 / PGSIZE == srcva / PGSIZE && PageOk(pt, mem, srcva / PGSIZE);
        forall v: nat | v in pt ensures pt[v] > 0 && v < MAXVA / PGSIZE { assert PageOk(pt, mem, v); }
        var f := Walkaddr(pt, va0);
        if f == 0 {
          return false, [];
        }
        var n := PGSIZE - (srcva - va0);
        if n > len - |dst| {
          n := len - |dst|;
        }
        var off := srcva - va0;
        ghost var d := dst;
        dst := dst + mem[f][off..off + n];
        forall k | 0 <= k < |dst| ensures (src + k) / PGSIZE in pt && dst[k] == At(pt, mem, src + k) {
          if k >= |d| { assert (src + k) / PGSIZE == srcva / PGSIZE && (src + k) % PGSIZE == off + (k - |d|); }
        }
        forall a: nat | src <= a < src + |dst| ensures a / PGSIZE in pt { assert (src + (a - src)) / PGSIZE in pt; }
      }
      ok := true;
    }
  }

  /** What a successful copyout has stored, a copyin of the same range reads back, and every
      byte of the address space outside the range is as before. */
  lemma RoundTrip(pt: Pages, m: Frames, w: Frames, va: nat, src: seq<Byte>, back: seq<Byte>, other: nat)
    requires Stored(pt, m, w, va, src, |src|) && Covers(pt, va, |src|) && |back| == |src|
    requires forall k :: 0 <= k < |src| ==> (va + k) / PGSIZE in pt && back[k] == At(pt, w, va + k)
    ensures back == src
    ensures other / PGSIZE in pt && !(va <= other < va + |src|) ==> At(pt, w, other) == At(pt, m, other)
  {
    forall k | 0 <= k < |src| ensures back[k] == src[k] { assert ByteSet(pt, m, w, va, src, |src|, va + k); }
    assert ByteSet(pt, m, w, va, src, |src|, other);
  }
}
