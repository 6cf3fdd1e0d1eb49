/** The blocks of an xv6 file system as fs.c uses them: the free map, the block addresses in
    inodes and indirect blocks, and the file contents that they give. */
module FileBlocks {
  import opened Common

  const BSIZE := 1024
  const NDIRECT := 12
  const NINDIRECT := 256
  const MAXFILE := 268
  const WORD := 0x1_0000_0000   // uint
  const BPB := 8192   // bits in a block of the free map
  const IPB := 16     // inodes in a block

  /** What fs.c keeps of an inode besides its directory side: size and block addresses. */
  datatype Inode = Inode(size: nat, addrs: seq<nat>)

  /** Where a block in use is referred to from.  `META` are boot block, log, inodes and free
      map; `LOOSE` is a block between balloc and its first reference. */
  datatype Slot = META | LOOSE | ADDR(inum: nat, k: nat) | ENTRY(inum: nat, j: nat)

  /** `used` is the free map, `disk` the data blocks, `inode` the in-memory inodes; `owner`
      is ghost. */
  datatype View = View(used: seq<bool>, disk: seq<seq<Byte>>, inode: seq<Inode>, owner: map<nat, Slot>)

  // ----- An indirect block holds 256 little-endian words -----

  function Word(s: seq<Byte>, j: nat): nat
    requires |s| == BSIZE && j < NINDIRECT
  {
    var b0: nat, b1: nat, b2: nat, b3: nat := s[4 * j], s[4 * j + 1], s[4 * j + 2], s[4 * j + 3];
    b0 + 0x100 * b1 + 0x1_0000 * b2 + 0x100_0000 * b3
  }

  function Low(x: nat): Byte {
    x % 0x100
  }

  function PutWord(s: seq<Byte>, j: nat, w: nat): (t: seq<Byte>)
    requires |s| == BSIZE && j < NINDIRECT && w < WORD
    ensures |t| == BSIZE
  {
    s[4 * j := Low(w)][4 * j + 1 := Low(w / 0x100)][4 * j + 2 := Low(w / 0x1_0000)][4 * j + 3 := Low(w / 0x100_0000)]
  }

  lemma Digits(w: nat)
    requires w < WORD
    ensures Low(w) + 0x100 * Low(w / 0x100) + 0x1_0000 * Low(w / 0x1_0000) + 0x100_0000 * Low(w / 0x100_0000) == w
  {
    var a, b, c := w / 0x100, w / 0x1_0000, w / 0x100_0000;
    assert b == a / 0x100 && c == b / 0x100;
  }

  lemma PutWordGives(s: seq<Byte>, j: nat, w: nat, k: nat)
    requires |s| == BSIZE && j < NINDIRECT && w < WORD && k < NINDIRECT
    ensures Word(PutWord(s, j, w), k) == if k == j then w else Word(s, k)
  {
    Digits(w);
  }

  function Zeros(): (s: seq<Byte>)
    ensures |s| == BSIZE && forall k :: 0 <= k < BSIZE ==> s[k] == 0
  {
    seq(BSIZE, _ => 0)
  }

  // ----- Addresses -----

  /** The address of indirect entry `j`, 0 if there is none. */
  function EntryAt(v: View, i: nat, j: nat): nat
    requires i < |v.inode| && |v.inode[i].addrs| == NDIRECT + 1 && j < NINDIRECT
  {
    var t := v.inode[i].addrs[NDIRECT];
    if t == 0 || t >= |v.disk| || |v.disk[t]| != BSIZE then 0 else Word(v.disk[t], j)
  }

  /** What bmap finds for block `bn` of file `i`. */
  function Addr(v: View, i: nat, bn: nat): nat
    requires i < |v.inode| && |v.inode[i].addrs| == NDIRECT + 1 && bn < MAXFILE
  {
    if bn < NDIRECT then v.inode[i].addrs[bn] else EntryAt(v, i, bn - NDIRECT)
  }

  // ----- The invariant -----

  predicate BlockOk(v: View, b: nat) {
    b < |v.disk| ==> |v.disk[b]| == BSIZE && b < |v.used| && (v.used[b] <==> b in v.owner)
  }

  predicate InodeOk(v: View, i: nat) {
    i < |v.inode| ==> |v.inode[i].addrs| == NDIRECT + 1 && v.inode[i].size <= MAXFILE * BSIZE
  }

  predicate AddrOk(v: View, i: nat, k: nat) {
    i < |v.inode| && |v.inode[i].addrs| == NDIRECT + 1 && k <= NDIRECT && v.inode[i].addrs[k] != 0 ==>
      var b := v.inode[i].addrs[k]; b < |v.disk| && b in v.owner && v.owner[b] == ADDR(i, k)
  }

  predicate EntryOk(v: View, i: nat, j: nat) {
    i < |v.inode| && |v.inode[i].addrs| == NDIRECT + 1 && j < NINDIRECT && EntryAt(v, i, j) != 0 ==>
      var b := EntryAt(v, i, j); b < |v.disk| && b in v.owner && v.owner[b] == ENTRY(i, j)
  }

  /** The one slot that refers to a block in use. */
  predicate OwnOk(v: View, b: nat) {
    b in v.owner ==>
      && b < |v.disk|
      && match v.owner[b]
         case ADDR(i, k) =>
           i < |v.inode| && |v.inode[i].addrs| == NDIRECT + 1 && k <= NDIRECT && v.inode[i].addrs[k] == b
         case ENTRY(i, j) =>
           i < |v.inode| && |v.inode[i].addrs| == NDIRECT + 1 && j < NINDIRECT && EntryAt(v, i, j) == b
         case _ => true
  }

  /** Every block below the file's size is there. */
  predicate SizeOk(v: View, i: nat, bn: nat) {
    i < |v.inode| && |v.inode[i].addrs| == NDIRECT + 1 && bn < MAXFILE && bn * BSIZE < v.inode[i].size ==>
        Addr(v, i, bn) != 0
  }

  /** The free map marks exactly the blocks that have an owner, a slot of an inode owns just the
      block that it refers to, and every file has its blocks.  Block 0 is metadata, so 0 is never
      an address. */
  ghost predicate Inv(v: View) {
    && |v.used| == |v.disk| <= WORD && 0 in v.owner && v.owner[0].META?
    && (forall b: nat :: BlockOk(v, b))
    && (forall b: nat :: OwnOk(v, b))
    && (forall i: nat :: InodeOk(v, i))
    && (forall i: nat, k: nat :: AddrOk(v, i, k))
    && (forall i: nat, j: nat :: EntryOk(v, i, j))
    && (forall i: nat, bn: nat :: SizeOk(v, i, bn))
  }

  // ----- Ownership -----

  predicate SettledAt(owner: map<nat, Slot>, meta: set<nat>, b: nat) {
    && (b in owner ==> !owner[b].LOOSE?)
    && (b in meta <==> b in owner && owner[b].META?)
  }

  /** No block is on its way from balloc to its first reference, and `meta` is the metadata. */
  ghost predicate Settled(owner: map<nat, Slot>, meta: set<nat>) {
    forall b: nat :: SettledAt(owner, meta, b)
  }

  /** Only block `b` is on its way. */
  ghost predicate SettledBut(owner: map<nat, Slot>, meta: set<nat>, b: nat) {
    b !in meta && forall c: nat :: c != b ==> SettledAt(owner, meta, c)
  }

  lemma TakeSettled(owner: map<nat, Slot>, meta: set<nat>, b: nat)
    requires Settled(owner, meta) && b !in owner
    ensures SettledBut(owner[b := LOOSE], meta, b)
  {
    var after := owner[b := LOOSE];
    assert SettledAt(owner, meta, b);
    forall c: nat | c != b ensures SettledAt(after, meta, c) { assert SettledAt(owner, meta, c); }
  }

  lemma SlotSettled(owner: map<nat, Slot>, meta: set<nat>, b: nat, s: Slot)
    requires SettledBut(owner, meta, b) && !s.LOOSE? && !s.META?
    ensures Settled(owner[b := s], meta)
  {
    var after := owner[b := s];
    forall c: nat ensures SettledAt(after, meta, c) { assert c != b ==> SettledAt(owner, meta, c); }
  }

  /** Slot `s` of an inode refers to block `b`. */
  predicate RefersTo(v: View, s: Slot, b: nat) {
    && b != 0
    && match s
       case ADDR(i, k) => i < |v.inode| && |v.inode[i].addrs| == NDIRECT + 1 && k <= NDIRECT && v.inode[i].addrs[k] == b
       case ENTRY(i, j) => i < |v.inode| && |v.inode[i].addrs| == NDIRECT + 1 && j < NINDIRECT && EntryAt(v, i, j) == b
       case _ => false
  }

  /** An image without files: the free map marks the metadata. */
  lemma EmptyImage(v: View, meta: set<nat>)
    requires |v.used| == |v.disk| <= WORD && 0 in meta && forall b: nat :: b in meta ==> b < |v.used|
    requires forall b: nat :: b < |v.disk| ==> |v.disk[b]| == BSIZE && v.used[b] == (b in meta)
    requires forall i :: 0 <= i < |v.inode| ==> v.inode[i] == Inode(0, NoAddrs())
    requires v.owner == map b | b in meta :: META
    ensures Inv(v) && Settled(v.owner, meta)
  {
    forall i: nat, j: nat | i < |v.inode| && j < NINDIRECT
      ensures |v.inode[i].addrs| == NDIRECT + 1 && EntryAt(v, i, j) == 0
    {
    }
    forall b: nat ensures BlockOk(v, b) && OwnOk(v, b) && SettledAt(v.owner, meta, b) && InodeOk(v, b) {}
    forall i: nat, k: nat ensures AddrOk(v, i, k) && EntryOk(v, i, k) && SizeOk(v, i, k) {}
  }

  /** A block is in use exactly when it is metadata or one slot of one inode refers to it:
      none is shared, and none is lost. */
  lemma UsedOnce(v: View, meta: set<nat>, b: nat)
    requires Inv(v) && Settled(v.owner, meta) && b < |v.used|
    ensures v.used[b] <==> b in meta || exists s: Slot :: RefersTo(v, s, b)
    ensures forall s: Slot, t: Slot :: RefersTo(v, s, b) && RefersTo(v, t, b) ==> s == t
    ensures forall s: Slot :: RefersTo(v, s, b) ==> b !in meta
  {
    assert BlockOk(v, b) && OwnOk(v, b) && OwnOk(v, 0) && SettledAt(v.owner, meta, b) && SettledAt(v.owner, meta, 0);
    forall s: Slot | RefersTo(v, s, b) ensures b in v.owner && v.owner[b] == s {
      match s
      case ADDR(i, k) => assert AddrOk(v, i, k);
      case ENTRY(i, j) => assert EntryOk(v, i, j);
    }
    if v.used[b] && b !in meta { assert RefersTo(v, v.owner[b], b); }
  }

  // ----- balloc and bfree -----

  function Take(v: View, b: nat): View
    requires b < |v.used| == |v.disk|
  {
    v.(used := v.used[b := true], disk := v.disk[b := Zeros()], owner := v.owner[b := LOOSE])
  }

  lemma TakeInv(v: View, b: nat)
    requires Inv(v) && b < |v.used| && !v.used[b]
    ensures Inv(Take(v, b)) && b != 0
    ensures forall i: nat, bn: nat :: SameAddr(v, Take(v, b), i, bn)
  {
    var w := Take(v, b);
    assert BlockOk(v, b) && BlockOk(v, 0) && OwnOk(v, 0);
    forall i: nat, j: nat
      ensures i < |v.inode| && |v.inode[i].addrs| == NDIRECT + 1 && j < NINDIRECT ==>
          EntryAt(w, i, j) == EntryAt(v, i, j)
    {
      assert AddrOk(v, i, NDIRECT);
    }
    forall c: nat ensures BlockOk(w, c) && OwnOk(w, c) { assert BlockOk(v, c) && OwnOk(v, c); }
    forall i: nat ensures InodeOk(w, i) { assert InodeOk(v, i); }
    forall i: nat, k: nat ensures AddrOk(w, i, k) { assert AddrOk(v, i, k); }
    forall i: nat, j: nat ensures EntryOk(w, i, j) { assert EntryOk(v, i, j); }
    forall i: nat, bn: nat ensures SizeOk(w, i, bn) { assert SizeOk(v, i, bn); }
  }

  predicate SameAddr(v: View, w: View, i: nat, bn: nat) {
    i < |v.inode| && |v.inode[i].addrs| == NDIRECT + 1 && bn < MAXFILE ==>
      i < |w.inode| && |w.inode[i].addrs| == NDIRECT + 1 && Addr(w, i, bn) == Addr(v, i, bn)
  }

  // ----- bmap's two ways to refer to a new block -----

  function SetAddr(v: View, i: nat, k: nat, b: nat): View
    requires i < |v.inode| && k < |v.inode[i].addrs|
  {
    v.(inode := v.inode[i := v.inode[i].(addrs := v.inode[i].addrs[k := b])], owner := v.owner[b := ADDR(i, k)])
  }

  predicate Loose(v: View, b: nat) {
    b < |v.disk| && b in v.owner && v.owner[b].LOOSE? && b != 0 && v.disk[b] == Zeros()
  }

  lemma SetAddrAt(v: View, i: nat, k: nat, b: nat, i': nat, bn: nat)
    requires Inv(v) && i < |v.inode| && k <= NDIRECT && Loose(v, b) && i' < |v.inode| && bn < MAXFILE
    requires |v.inode[i].addrs| == NDIRECT + 1 && |v.inode[i'].addrs| == NDIRECT + 1 && v.inode[i].addrs[k] == 0
    ensures |SetAddr(v, i, k, b).inode[i'].addrs| == NDIRECT + 1
    ensures Addr(SetAddr(v, i, k, b), i', bn) == if i' == i && bn == k && k < NDIRECT then b else Addr(v, i', bn)
  {
    if bn >= NDIRECT && i' == i && k == NDIRECT { assert Word(Zeros(), bn - NDIRECT) == 0; }
  }

  lemma SetAddrInv(v: View, i: nat, k: nat, b: nat)
    requires Inv(v) && i < |v.inode| && k <= NDIRECT && Loose(v, b)
    requires |v.inode[i].addrs| == NDIRECT + 1 && v.inode[i].addrs[k] == 0
    ensures Inv(SetAddr(v, i, k, b))
  {
    var w := SetAddr(v, i, k, b);
    forall c: nat ensures BlockOk(w, c) && InodeOk(w, c) { assert BlockOk(v, c) && InodeOk(v, c); }
    forall i': nat, bn: nat | i' < |v.inode| && bn < MAXFILE
      ensures |w.inode[i'].addrs| == NDIRECT + 1
      ensures Addr(w, i', bn) == if i' == i && bn == k && k < NDIRECT then b else Addr(v, i', bn)
    {
      assert InodeOk(v, i');
      SetAddrAt(v, i, k, b, i', bn);
    }
    forall i': nat, j: nat | i' < |v.inode| && j < NINDIRECT
      ensures |v.inode[i'].addrs| == NDIRECT + 1 && |w.inode[i'].addrs| == NDIRECT + 1
      ensures EntryAt(w, i', j) == EntryAt(v, i', j)
    {
      assert InodeOk(v, i') && InodeOk(w, i');
      assert Addr(w, i', NDIRECT + j) == Addr(v, i', NDIRECT + j);
    }
    forall c: nat ensures OwnOk(w, c) { assert OwnOk(v, c); }
    forall i': nat, k': nat ensures AddrOk(w, i', k') { assert AddrOk(v, i', k'); }
    forall i': nat, j: nat ensures EntryOk(w, i', j) { assert EntryOk(v, i', j); }
    forall i': nat, bn: nat ensures SizeOk(w, i', bn) { assert SizeOk(v, i', bn); }
  }

  function SetEntry(v: View, i: nat, j: nat, b: nat): View
    requires i < |v.inode| && |v.inode[i].addrs| == NDIRECT + 1 && j < NINDIRECT && b < WORD
    requires v.inode[i].addrs[NDIRECT] < |v.disk| && |v.disk[v.inode[i].addrs[NDIRECT]]| == BSIZE
  {
    var t := v.inode[i].addrs[NDIRECT];
    v.(disk := v.disk[t := PutWord(v.disk[t], j, b)], owner := v.owner[b := ENTRY(i, j)])
  }

  predicate NoEntry(v: View, i: nat, j: nat) {
    && i < |v.inode| && |v.inode[i].addrs| == NDIRECT + 1 && j < NINDIRECT && EntryAt(v, i, j) == 0
    && v.inode[i].addrs[NDIRECT] != 0 && v.inode[i].addrs[NDIRECT] < |v.disk|
    && |v.disk[v.inode[i].addrs[NDIRECT]]| == BSIZE
  }

  lemma SetEntryAt(v: View, i: nat, j: nat, b: nat, i': nat, bn: nat)
    requires Inv(v) && NoEntry(v, i, j) && Loose(v, b) && i' < |v.inode| && bn < MAXFILE
    requires |v.inode[i'].addrs| == NDIRECT + 1
    ensures b < WORD
    ensures Addr(SetEntry(v, i, j, b), i', bn) == if i' == i && bn == NDIRECT + j then b else Addr(v, i', bn)
  {
    assert AddrOk(v, i, NDIRECT) && AddrOk(v, i', NDIRECT);
    if bn >= NDIRECT { PutWordGives(v.disk[v.inode[i].addrs[NDIRECT]], j, b, bn - NDIRECT); }
  }

  lemma SetEntryInv(v: View, i: nat, j: nat, b: nat)
    requires Inv(v) && NoEntry(v, i, j) && Loose(v, b)
    ensures b < WORD && Inv(SetEntry(v, i, j, b))
  {
    var w := SetEntry(v, i, j, b);
    forall c: nat ensures BlockOk(w, c) && InodeOk(w, c) { assert BlockOk(v, c) && InodeOk(v, c); }
    forall i': nat, bn: nat | i' < |v.inode| && bn < MAXFILE
      ensures |w.inode[i'].addrs| == NDIRECT + 1
      ensures Addr(w, i', bn) == if i' == i && bn == NDIRECT + j then b else Addr(v, i', bn)
    {
      assert InodeOk(v, i');
      SetEntryAt(v, i, j, b, i', bn);
    }
    forall i': nat, j': nat | i' < |v.inode| && j' < NINDIRECT
      ensures |v.inode[i'].addrs| == NDIRECT + 1 && |w.inode[i'].addrs| == NDIRECT + 1
      ensures EntryAt(w, i', j') == if i' == i && j' == j then b else EntryAt(v, i', j')
    {
      assert InodeOk(v, i') && InodeOk(w, i');
      assert Addr(w, i', NDIRECT + j') == if i' == i && j' == j then b else Addr(v, i', NDIRECT + j');
    }
    forall c: nat ensures OwnOk(w, c) { assert OwnOk(v, c); }
    forall i': nat, k: nat ensures AddrOk(w, i', k) { assert AddrOk(v, i', k); }
    forall i': nat, j': nat ensures EntryOk(w, i', j') { assert EntryOk(v, i', j'); }
    forall i': nat, bn: nat ensures SizeOk(w, i', bn) { assert SizeOk(v, i', bn); }
  }

  // ----- Contents -----

  /** Byte `k` of file `i`. */
  function ByteAt(v: View, i: nat, k: nat): Byte
    requires Inv(v) && i < |v.inode| && k < v.inode[i].size
  {
    DataBlock(v, i, k / BSIZE);
    v.disk[Addr(v, i, k / BSIZE)][k % BSIZE]
  }

  lemma DataBlock(v: View, i: nat, bn: nat)
    requires Inv(v) && i < |v.inode| && bn * BSIZE < v.inode[i].size
    ensures |v.inode[i].addrs| == NDIRECT + 1 && bn < MAXFILE && Addr(v, i, bn) < |v.disk|
    ensures |v.disk[Addr(v, i, bn)]| == BSIZE && Addr(v, i, bn) != 0
  {
    assert InodeOk(v, i);
    assert SizeOk(v, i, bn);
    AddrOwned(v, i, bn);
    assert BlockOk(v, Addr(v, i, bn));
  }

  lemma AddrOwned(v: View, i: nat, bn: nat)
    requires Inv(v) && i < |v.inode| && |v.inode[i].addrs| == NDIRECT + 1 && bn < MAXFILE && Addr(v, i, bn) != 0
    ensures var b := Addr(v, i, bn);
      b < |v.disk| && b in v.owner && v.owner[b] == if bn < NDIRECT then ADDR(i, bn) else ENTRY(i, bn - NDIRECT)
  {
    if bn < NDIRECT { assert AddrOk(v, i, bn); } else { assert EntryOk(v, i, bn - NDIRECT); }
  }

  function Content(v: View, i: nat): (s: seq<Byte>)
    requires Inv(v) && i < |v.inode|
    ensures |s| == v.inode[i].size && forall k :: 0 <= k < |s| ==> s[k] == ByteAt(v, i, k)
  {
    seq(v.inode[i].size, k requires 0 <= k < v.inode[i].size => ByteAt(v, i, k))
  }

  /** From `v` to `w` blocks may have been added to files, and no contents have changed. */
  predicate GrewAt(v: View, w: View, i: nat, bn: nat) {
    i < |v.inode| && |v.inode[i].addrs| == NDIRECT + 1 && bn < MAXFILE && Addr(v, i, bn) != 0 ==>
      && i < |w.inode| && |w.inode[i].addrs| == NDIRECT + 1 && Addr(w, i, bn) == Addr(v, i, bn)
      && Addr(v, i, bn) < |v.disk| == |w.disk| && w.disk[Addr(v, i, bn)] == v.disk[Addr(v, i, bn)]
  }

  predicate TopStays(v: View, w: View, i: nat) {
    i < |v.inode| && |v.inode[i].addrs| == NDIRECT + 1 && v.inode[i].addrs[NDIRECT] != 0 ==>
      i < |w.inode| && |w.inode[i].addrs| == NDIRECT + 1 && w.inode[i].addrs[NDIRECT] == v.inode[i].addrs[NDIRECT]
  }

  ghost predicate Grew(v: View, w: View) {
    && |w.inode| == |v.inode| && |w.disk| == |v.disk| && |w.used| == |v.used|
    && (forall i: nat :: TopStays(v, w, i))
    && (forall i :: 0 <= i < |v.inode| ==> w.inode[i].size == v.inode[i].size)
    && (forall i: nat, bn: nat :: GrewAt(v, w, i, bn))
  }

  lemma GrewContent(v: View, w: View, i: nat)
    requires Inv(v) && Inv(w) && Grew(v, w) && i < |v.inode|
    ensures Content(w, i) == Content(v, i)
  {
    forall k | 0 <= k < v.inode[i].size ensures ByteAt(w, i, k) == ByteAt(v, i, k) {
      DataBlock(v, i, k / BSIZE);
      assert GrewAt(v, w, i, k / BSIZE);
    }
  }

  lemma GrewTrans(v: View, w: View, x: View)
    requires Grew(v, w) && Grew(w, x)
    ensures Grew(v, x)
  {
    forall i: nat, bn: nat ensures GrewAt(v, x, i, bn) { assert GrewAt(v, w, i, bn) && GrewAt(w, x, i, bn); }
    forall i: nat ensures TopStays(v, x, i) { assert TopStays(v, w, i) && TopStays(w, x, i); }
  }

  lemma TakeGrew(v: View, b: nat)
    requires Inv(v) && b < |v.used| && !v.used[b]
    ensures Grew(v, Take(v, b))
  {
    TakeInv(v, b);
    assert BlockOk(v, b);
    forall i: nat, bn: nat ensures GrewAt(v, Take(v, b), i, bn) {
      assert SameAddr(v, Take(v, b), i, bn);
      if i < |v.inode| && |v.inode[i].addrs| == NDIRECT + 1 && bn < MAXFILE && Addr(v, i, bn) != 0 {
        AddrOwned(v, i, bn);
      }
    }
  }

  lemma SetAddrGrew(v: View, i: nat, k: nat, b: nat)
    requires Inv(v) && i < |v.inode| && k <= NDIRECT && Loose(v, b)
    requires |v.inode[i].addrs| == NDIRECT + 1 && v.inode[i].addrs[k] == 0
    ensures Grew(v, SetAddr(v, i, k, b))
  {
    forall i': nat, bn: nat ensures GrewAt(v, SetAddr(v, i, k, b), i', bn) {
      if i' < |v.inode| && |v.inode[i'].addrs| == NDIRECT + 1 && bn < MAXFILE && Addr(v, i', bn) != 0 {
        SetAddrAt(v, i, k, b, i', bn);
        AddrOwned(v, i', bn);
      }
    }
  }

  lemma SetEntryGrew(v: View, i: nat, j: nat, b: nat)
    requires Inv(v) && NoEntry(v, i, j) && Loose(v, b)
    ensures b < WORD && Grew(v, SetEntry(v, i, j, b))
  {
    forall i': nat, bn: nat ensures GrewAt(v, SetEntry(v, i, j, b), i', bn) {
      if i' < |v.inode| && |v.inode[i'].addrs| == NDIRECT + 1 && bn < MAXFILE && Addr(v, i', bn) != 0 {
        SetEntryAt(v, i, j, b, i', bn);
        AddrOwned(v, i', bn);
        assert AddrOk(v, i, NDIRECT);
      }
    }
  }

  // ----- Writing -----

  /** Byte `k` of file `i` has a block, below its size or not. */
  predicate Has(v: View, i: nat, k: nat) {
    && i < |v.inode| && |v.inode[i].addrs| == NDIRECT + 1 && k / BSIZE < MAXFILE && Addr(v, i, k / BSIZE) != 0
    && Addr(v, i, k / BSIZE) < |v.disk| && |v.disk[Addr(v, i, k / BSIZE)]| == BSIZE
  }

  function Raw(v: View, i: nat, k: nat): Byte
    requires Has(v, i, k)
  {
    v.disk[Addr(v, i, k / BSIZE)][k % BSIZE]
  }

  /** Block `bn` of file `i` gets new contents. */
  function Store(v: View, i: nat, bn: nat, block: seq<Byte>): View
    requires i < |v.inode| && |v.inode[i].addrs| == NDIRECT + 1 && bn < MAXFILE && Addr(v, i, bn) < |v.disk|
  {
    v.(disk := v.disk[Addr(v, i, bn) := block])
  }

  predicate HasBlock(v: View, i: nat, bn: nat) {
    && i < |v.inode| && |v.inode[i].addrs| == NDIRECT + 1 && bn < MAXFILE
    && Addr(v, i, bn) != 0 && Addr(v, i, bn) < |v.disk|
  }

  lemma StoreAt(v: View, i: nat, bn: nat, block: seq<Byte>, i': nat, bn': nat)
    requires Inv(v) && HasBlock(v, i, bn) && |block| == BSIZE
    requires i' < |v.inode| && |v.inode[i'].addrs| == NDIRECT + 1 && bn' < MAXFILE
    ensures Addr(Store(v, i, bn, block), i', bn') == Addr(v, i', bn')
    ensures Addr(v, i', bn') != 0 && (i' != i || bn' != bn) ==> Addr(v, i', bn') != Addr(v, i, bn)
  {
    AddrOwned(v, i, bn);
    assert AddrOk(v, i', NDIRECT);
    if Addr(v, i', bn') != 0 { AddrOwned(v, i', bn'); }
  }

  lemma StoreInv(v: View, i: nat, bn: nat, block: seq<Byte>)
    requires Inv(v) && HasBlock(v, i, bn) && |block| == BSIZE
    ensures Inv(Store(v, i, bn, block))
  {
    var w := Store(v, i, bn, block);
    forall c: nat ensures BlockOk(w, c) && InodeOk(w, c) { assert BlockOk(v, c) && InodeOk(v, c); }
    forall i': nat, bn': nat | i' < |v.inode| && bn' < MAXFILE
      ensures |w.inode[i'].addrs| == NDIRECT + 1 && Addr(w, i', bn') == Addr(v, i', bn')
    {
      assert InodeOk(v, i');
      StoreAt(v, i, bn, block, i', bn');
    }
    forall i': nat, j: nat | i' < |v.inode| && j < NINDIRECT
      ensures |v.inode[i'].addrs| == NDIRECT + 1 && |w.inode[i'].addrs| == NDIRECT + 1
      ensures EntryAt(w, i', j) == EntryAt(v, i', j)
    {
      assert InodeOk(v, i') && InodeOk(w, i');
      assert Addr(w, i', NDIRECT + j) == Addr(v, i', NDIRECT + j);
    }
    forall c: nat ensures OwnOk(w, c) { assert OwnOk(v, c); }
    forall i': nat, k: nat ensures AddrOk(w, i', k) { assert AddrOk(v, i', k); }
    forall i': nat, j: nat ensures EntryOk(w, i', j) { assert EntryOk(v, i', j); }
    forall i': nat, bn': nat ensures SizeOk(w, i', bn') { assert SizeOk(v, i', bn'); }
  }

  /** Bytes `off..off + n` of file `i` are those of `src`; the other bytes that it had are as
      they were. */
  predicate WroteAt(v: View, w: View, i: nat, off: nat, src: seq<Byte>, n: nat, k: nat) {
    if off <= k < off + n && n <= |src| then Has(w, i, k) && Raw(w, i, k) == src[k - off]
    else Has(v, i, k) ==> Has(w, i, k) && Raw(w, i, k) == Raw(v, i, k)
  }

  ghost predicate Wrote(v: View, w: View, i: nat, off: nat, src: seq<Byte>, n: nat) {
    && |w.inode| == |v.inode| && |w.disk| == |v.disk| && n <= |src|
    && (forall i' :: 0 <= i' < |v.inode| ==> w.inode[i'].size == v.inode[i'].size)
    && (forall i': nat, bn: nat :: i' != i ==> GrewAt(v, w, i', bn))
    && (forall k: nat :: WroteAt(v, w, i, off, src, n, k))
  }

  lemma GrewHas(v: View, w: View, i: nat, k: nat)
    requires Grew(v, w) && Has(v, i, k)
    ensures Has(w, i, k) && Raw(w, i, k) == Raw(v, i, k)
  {
    assert GrewAt(v, w, i, k / BSIZE);
  }

  lemma WroteGrew(v: View, w: View, x: View, i: nat, off: nat, src: seq<Byte>, n: nat)
    requires Wrote(v, w, i, off, src, n) && Grew(w, x)
    ensures Wrote(v, x, i, off, src, n)
  {
    forall i': nat, bn: nat | i' != i ensures GrewAt(v, x, i', bn) {
      assert GrewAt(v, w, i', bn) && GrewAt(w, x, i', bn);
    }
    forall k: nat ensures WroteAt(v, x, i, off, src, n, k) {
      assert WroteAt(v, w, i, off, src, n, k);
      if Has(w, i, k) { GrewHas(w, x, i, k); }
    }
  }

  lemma WroteBlit(v: View, w: View, i: nat, off: nat, src: seq<Byte>, n: nat, m: nat, all: nat)
    requires Inv(w) && Wrote(v, w, i, off, src, n) && all == n + m <= |src|
    requires Has(w, i, off + n) && (off + n) % BSIZE + m <= BSIZE
    ensures var bn, at := (off + n) / BSIZE, (off + n) % BSIZE;
      && HasBlock(w, i, bn) && |w.disk[Addr(w, i, bn)]| == BSIZE
      && Wrote(v, Store(w, i, bn, Blit(w.disk[Addr(w, i, bn)], at, src, n, m)), i, off, src, all)
  {
    var bn, at := (off + n) / BSIZE, (off + n) % BSIZE;
    var x := Store(w, i, bn, Blit(w.disk[Addr(w, i, bn)], at, src, n, m));
    forall i': nat, bn': nat | i' != i ensures GrewAt(v, x, i', bn') {
      assert GrewAt(v, w, i', bn');
      if i' < |w.inode| && |w.inode[i'].addrs| == NDIRECT + 1 && bn' < MAXFILE {
        StoreAt(w, i, bn, Blit(w.disk[Addr(w, i, bn)], at, src, n, m), i', bn');
      }
    }
    forall k: nat ensures WroteAt(v, x, i, off, src, all, k) {
      assert WroteAt(v, w, i, off, src, n, k);
      if k / BSIZE < MAXFILE { StoreAt(w, i, bn, Blit(w.disk[Addr(w, i, bn)], at, src, n, m), i, k / BSIZE); }
      if off + n <= k < off + all { assert k / BSIZE == bn && k % BSIZE == at + (k - (off + n)); }
    }
  }

  function Resize(v: View, i: nat, size: nat): View
    requires i < |v.inode|
  {
    v.(inode := v.inode[i := v.inode[i].(size := size)])
  }

  lemma ResizeAddr(v: View, i: nat, size: nat, i': nat, bn: nat)
    requires i < |v.inode| && i' < |v.inode| && |v.inode[i'].addrs| == NDIRECT + 1 && bn < MAXFILE
    ensures Resize(v, i, size).inode[i'].addrs == v.inode[i'].addrs
    ensures Addr(Resize(v, i, size), i', bn) == Addr(v, i', bn)
  {
  }

  lemma ResizeInv(v: View, i: nat, size: nat)
    requires Inv(v) && i < |v.inode| && size <= MAXFILE * BSIZE
    requires forall bn: nat :: bn * BSIZE < size ==> HasBlock(v, i, bn)
    ensures Inv(Resize(v, i, size))
  {
    var w := Resize(v, i, size);
    forall c: nat ensures BlockOk(w, c) && InodeOk(w, c) { assert BlockOk(v, c) && InodeOk(v, c); }
    forall i': nat, j: nat | i' < |v.inode| && j < NINDIRECT
      ensures |v.inode[i'].addrs| == NDIRECT + 1 && |w.inode[i'].addrs| == NDIRECT + 1
      ensures EntryAt(w, i', j) == EntryAt(v, i', j)
    {
      assert InodeOk(v, i') && InodeOk(w, i');
    }
    forall c: nat ensures OwnOk(w, c) { assert OwnOk(v, c); }
    forall i': nat, k: nat ensures AddrOk(w, i', k) { assert AddrOk(v, i', k); }
    forall i': nat, j: nat ensures EntryOk(w, i', j) { assert EntryOk(v, i', j); }
    forall i': nat, bn: nat ensures SizeOk(w, i', bn) {
      assert SizeOk(v, i', bn);
      if i' == i && bn * BSIZE < size { assert HasBlock(v, i, bn); }
    }
  }

  /** `was` with `s` at `off`, longer if need be. */
  function Spliced(was: seq<Byte>, off: nat, s: seq<Byte>): seq<Byte>
    requires off <= |was|
  {
    was[..off] + s + (if off + |s| < |was| then was[off + |s|..] else [])
  }

  /** What writei has done: `n` bytes of `src` at `off` of file `i`, and nothing to the others. */
  lemma WroteContent(v: View, w: View, i: nat, off: nat, src: seq<Byte>, n: nat)
    requires Inv(v) && Inv(w) && Wrote(v, w, i, off, src, n) && i < |v.inode| && off <= v.inode[i].size
    requires off + n <= MAXFILE * BSIZE
    ensures var size := if off + n > v.inode[i].size then off + n else v.inode[i].size;
      && Inv(Resize(w, i, size)) && Content(Resize(w, i, size), i) == Spliced(Content(v, i), off, src[..n])
      && forall i' :: 0 <= i' < |v.inode| && i' != i ==> Content(Resize(w, i, size), i') == Content(v, i')
  {
    var size := if off + n > v.inode[i].size then off + n else v.inode[i].size;
    assert InodeOk(v, i) && InodeOk(w, i);
    forall k: nat | k < size ensures Has(w, i, k) {
      assert WroteAt(v, w, i, off, src, n, k);
      if k < v.inode[i].size { DataBlock(v, i, k / BSIZE); }
    }
    forall bn: nat | bn * BSIZE < size ensures HasBlock(w, i, bn) { assert Has(w, i, bn * BSIZE); }
    ResizeInv(w, i, size);
    var x := Resize(w, i, size);
    forall k | 0 <= k < size ensures ByteAt(x, i, k) == Spliced(Content(v, i), off, src[..n])[k] {
      assert WroteAt(v, w, i, off, src, n, k) && Has(w, i, k);
      ResizeAddr(w, i, size, i, k / BSIZE);
      if k < v.inode[i].size { DataBlock(v, i, k / BSIZE); }
    }
    forall i' | 0 <= i' < |v.inode| && i' != i ensures Content(x, i') == Content(v, i') {
      OtherContent(v, w, x, i, i', size);
    }
  }

  lemma OtherContent(v: View, w: View, x: View, i: nat, i': nat, size: nat)
    requires Inv(v) && Inv(x) && i < |w.inode| == |v.inode| && x == Resize(w, i, size) && i' < |v.inode| && i' != i
    requires w.inode[i'].size == v.inode[i'].size && forall bn: nat :: GrewAt(v, w, i', bn)
    ensures Content(x, i') == Content(v, i')
  {
    forall k | 0 <= k < v.inode[i'].size ensures ByteAt(x, i', k) == ByteAt(v, i', k) {
      DataBlock(v, i', k / BSIZE);
      assert GrewAt(v, w, i', k / BSIZE);
      ResizeAddr(w, i, size, i', k / BSIZE);
    }
  }

  /** `m` bytes of a file from `at` on, from the block that has them. */
  function Part(v: View, i: nat, at: nat, m: nat): (s: seq<Byte>)
    requires Has(v, i, at) && at % BSIZE + m <= BSIZE
    ensures |s| == m
  {
    v.disk[Addr(v, i, at / BSIZE)][at % BSIZE..at % BSIZE + m]
  }

  lemma PartOfFile(v: View, i: nat, at: nat, m: nat)
    requires Inv(v) && i < |v.inode| && at < v.inode[i].size && at + m <= v.inode[i].size && at % BSIZE + m <= BSIZE
    ensures HasBlock(v, i, at / BSIZE) && Has(v, i, at)
    ensures forall k :: 0 <= k < m ==> Part(v, i, at, m)[k] == Content(v, i)[at + k]
  {
    DataBlock(v, i, at / BSIZE);
    forall k | 0 <= k < m ensures Part(v, i, at, m)[k] == Content(v, i)[at + k] {
      assert (at + k) / BSIZE == at / BSIZE && (at + k) % BSIZE == at % BSIZE + k;
    }
  }

  /** How many bytes of the range `off..off + n` a file of this size gives to readi. */
  function Readable(size: nat, off: nat, n: nat): nat {
    if off > size || off + n >= WORD then 0 else if off + n > size then size - off else n
  }

  // ----- itrunc -----

  predicate Mine(s: Slot, i: nat) {
    (s.ADDR? && s.inum == i) || (s.ENTRY? && s.inum == i)
  }

  function NoAddrs(): (a: seq<nat>)
    ensures |a| == NDIRECT + 1 && forall k :: 0 <= k <= NDIRECT ==> a[k] == 0
  {
    seq(NDIRECT + 1, _ => 0)
  }

  /** File `i` gives up all its blocks. */
  ghost function Truncated(v: View, i: nat): View
    requires Inv(v) && i < |v.inode|
  {
    View(seq(|v.used|, b requires 0 <= b < |v.used| => v.used[b] && !(b in v.owner && Mine(v.owner[b], i))),
         v.disk, v.inode[i := Inode(0, NoAddrs())], map b | b in v.owner && !Mine(v.owner[b], i) :: v.owner[b])
  }

  lemma TruncatedSettled(v: View, i: nat, meta: set<nat>)
    requires Inv(v) && i < |v.inode| && Settled(v.owner, meta)
    ensures Settled(Truncated(v, i).owner, meta)
  {
    forall b: nat ensures SettledAt(Truncated(v, i).owner, meta, b) { assert SettledAt(v.owner, meta, b); }
  }

  lemma TruncatedInv(v: View, i: nat)
    requires Inv(v) && i < |v.inode|
    ensures Inv(Truncated(v, i)) && Content(Truncated(v, i), i) == []
    ensures forall i' :: 0 <= i' < |v.inode| && i' != i ==> Content(Truncated(v, i), i') == Content(v, i')
  {
    var w := Truncated(v, i);
    forall c: nat ensures BlockOk(w, c) && InodeOk(w, c) { assert BlockOk(v, c) && InodeOk(v, c); }
    forall i': nat, j: nat | i' < |v.inode| && j < NINDIRECT && i' != i
      ensures |v.inode[i'].addrs| == NDIRECT + 1 && EntryAt(w, i', j) == EntryAt(v, i', j)
    {
      assert InodeOk(v, i');
    }
    forall c: nat ensures OwnOk(w, c) { assert OwnOk(v, c); }
    forall i': nat, k: nat ensures AddrOk(w, i', k) { assert AddrOk(v, i', k); }
    forall i': nat, j: nat ensures EntryOk(w, i', j) { assert EntryOk(v, i', j); }
    forall i': nat, bn: nat ensures SizeOk(w, i', bn) { assert SizeOk(v, i', bn); }
    forall i' | 0 <= i' < |v.inode| && i' != i ensures Content(w, i') == Content(v, i') {
      forall k | 0 <= k < v.inode[i'].size ensures ByteAt(w, i', k) == ByteAt(v, i', k) { DataBlock(v, i', k / BSIZE); }
    }
  }

  /** The slots that itrunc has freed: direct ones below `k`, indirect ones below `j`, and at
      last the indirect block. */
  predicate Done(s: Slot, i: nat, k: nat, j: nat, last: bool) {
    || (s.ADDR? && s.inum == i && (s.k < k || (s.k == NDIRECT && last)))
    || (s.ENTRY? && s.inum == i && s.j < j)
  }

  predicate FreedAt(v: View, bits: seq<bool>, i: nat, k: nat, j: nat, last: bool, b: nat) {
    b < |v.used| && b < |bits| ==> (bits[b] <==> v.used[b] && !(b in v.owner && Done(v.owner[b], i, k, j, last)))
  }

  ghost predicate Freed(v: View, bits: seq<bool>, i: nat, k: nat, j: nat, last: bool) {
    |bits| == |v.used| && k <= NDIRECT && forall b: nat :: FreedAt(v, bits, i, k, j, last, b)
  }

  /** itrunc frees block `b`, or finds no block (0) in the next slot. */
  function Without(bits: seq<bool>, b: nat): seq<bool> {
    if b != 0 && b < |bits| then bits[b := false] else bits
  }

  lemma FreedDirect(v: View, bits: seq<bool>, i: nat, k: nat, next: nat)
    requires Inv(v) && i < |v.inode| && k < NDIRECT && next == k + 1 && Freed(v, bits, i, k, 0, false)
    ensures |v.inode[i].addrs| == NDIRECT + 1 && var b := v.inode[i].addrs[k];
      && (b != 0 ==> b < |bits| && bits[b]) && Freed(v, Without(bits, b), i, next, 0, false)
  {
    assert InodeOk(v, i) && AddrOk(v, i, k);
    var b := v.inode[i].addrs[k];
    if b != 0 { assert FreedAt(v, bits, i, k, 0, false, b) && BlockOk(v, b); }
    forall c: nat ensures FreedAt(v, Without(bits, b), i, next, 0, false, c) {
      assert FreedAt(v, bits, i, k, 0, false, c) && OwnOk(v, c) && OwnOk(v, 0);
    }
  }

  lemma FreedEntry(v: View, bits: seq<bool>, i: nat, j: nat, next: nat)
    requires Inv(v) && i < |v.inode| && j < NINDIRECT && next == j + 1 && Freed(v, bits, i, NDIRECT, j, false)
    ensures |v.inode[i].addrs| == NDIRECT + 1 && var b := EntryAt(v, i, j);
      && (b != 0 ==> b < |bits| && bits[b]) && Freed(v, Without(bits, b), i, NDIRECT, next, false)
  {
    assert InodeOk(v, i) && EntryOk(v, i, j);
    var b := EntryAt(v, i, j);
    if b != 0 { assert FreedAt(v, bits, i, NDIRECT, j, false, b) && BlockOk(v, b); }
    forall c: nat ensures FreedAt(v, Without(bits, b), i, NDIRECT, next, false, c) {
      assert FreedAt(v, bits, i, NDIRECT, j, false, c) && OwnOk(v, c) && OwnOk(v, 0);
    }
  }

  /** No entries are left to free, or there never was an indirect block. */
  lemma FreedIndirect(v: View, bits: seq<bool>, i: nat, j: nat)
    requires Inv(v) && i < |v.inode| && Freed(v, bits, i, NDIRECT, j, false)
    requires |v.inode[i].addrs| == NDIRECT + 1 && (j == NINDIRECT || v.inode[i].addrs[NDIRECT] == 0)
    ensures var b := v.inode[i].addrs[NDIRECT];
      && (b != 0 ==> b < |bits| && bits[b]) && Without(bits, b) == Truncated(v, i).used
  {
    var b := v.inode[i].addrs[NDIRECT];
    assert AddrOk(v, i, NDIRECT) && OwnOk(v, 0);
    if b != 0 { assert FreedAt(v, bits, i, NDIRECT, j, false, b) && BlockOk(v, b); }
    forall c | 0 <= c < |bits| ensures Without(bits, b)[c] == Truncated(v, i).used[c] {
      assert FreedAt(v, bits, i, NDIRECT, j, false, c) && OwnOk(v, c);
    }
  }

  // ----- What an operation logs -----

  /** A block given to log_write: of data (or block addresses), of the free map, of inodes. */
  datatype Logged = DATA(b: nat) | MAP(c: nat) | INODES(c: nat)

  predicate CoveredAt(v: View, w: View, xs: set<Logged>, b: nat) {
    && (b < |v.disk| && b < |w.disk| && w.disk[b] != v.disk[b] ==> DATA(b) in xs)
    && (b < |v.used| && b < |w.used| && w.used[b] != v.used[b] ==> MAP(b / BPB) in xs)
  }

  /** Every block that has changed from `v` to `w`, of data or of the free map, is in `xs`. */
  ghost predicate Covered(v: View, w: View, xs: set<Logged>) {
    |w.disk| == |v.disk| && |w.used| == |v.used| && forall b: nat :: CoveredAt(v, w, xs, b)
  }

  lemma CoveredSame(v: View, w: View, xs: set<Logged>)
    requires w.disk == v.disk && w.used == v.used
    ensures Covered(v, w, xs)
  {
    forall b: nat ensures CoveredAt(v, w, xs, b) {}
  }

  lemma CoveredTrans(v: View, w: View, x: View, xs: set<Logged>, ys: set<Logged>)
    requires Covered(v, w, xs) && xs <= ys && Covered(w, x, ys)
    ensures Covered(v, x, ys)
  {
    forall b: nat ensures CoveredAt(v, x, ys, b) { assert CoveredAt(v, w, xs, b) && CoveredAt(w, x, ys, b); }
  }

  lemma CoveredTake(v: View, b: nat, xs: set<Logged>)
    requires b < |v.used| == |v.disk| && {MAP(b / BPB), DATA(b)} <= xs
    ensures Covered(v, Take(v, b), xs)
  {
    assert MAP(b / BPB) in xs && DATA(b) in xs;
    forall c: nat ensures CoveredAt(v, Take(v, b), xs, c) {}
  }

  lemma CoveredBlock(v: View, w: View, b: nat, xs: set<Logged>)
    requires b < |v.disk| && |w.disk| == |v.disk| && w.disk == v.disk[b := w.disk[b]] && w.used == v.used
    requires DATA(b) in xs
    ensures Covered(v, w, xs)
  {
    forall c: nat ensures CoveredAt(v, w, xs, c) {}
  }

  lemma CoveredFree(v: View, w: View, b: nat, xs: set<Logged>)
    requires b < |v.used| && w.used == v.used[b := false] && w.disk == v.disk && MAP(b / BPB) in xs
    ensures Covered(v, w, xs)
  {
    forall c: nat ensures CoveredAt(v, w, xs, c) {}
  }

  predicate InodeCovered(v: seq<Inode>, w: seq<Inode>, xs: set<Logged>, j: nat) {
    j < |v| && j < |w| && w[j] != v[j] ==> INODES(j / IPB) in xs
  }

  /** So is every block of inodes. */
  ghost predicate InodesCovered(v: seq<Inode>, w: seq<Inode>, xs: set<Logged>) {
    forall j: nat :: InodeCovered(v, w, xs, j)
  }

  predicate Refers(v: View, i: nat, bn: nat, b: nat) {
    i < |v.inode| && |v.inode[i].addrs| == NDIRECT + 1 && bn < MAXFILE && Addr(v, i, bn) == b
  }

  /** What writing blocks `lo..hi` of file `i` may log. */
  predicate InBudget(v: View, i: nat, lo: nat, hi: nat, x: Logged) {
    match x
    case MAP(c) => c * BPB < |v.used|
    case INODES(c) => c == i / IPB
    case DATA(b) =>
      b != 0 && ((i < |v.inode| && |v.inode[i].addrs| == NDIRECT + 1 && b == v.inode[i].addrs[NDIRECT]) ||
                 exists bn: nat :: lo <= bn < hi && Refers(v, i, bn, b))
  }

  ghost predicate Within(v: View, i: nat, lo: nat, hi: nat, xs: set<Logged>) {
    forall x :: x in xs ==> InBudget(v, i, lo, hi, x)
  }

  predicate AddrStays(v: View, w: View, i: nat, bn: nat) {
    i < |v.inode| && |v.inode[i].addrs| == NDIRECT + 1 && bn < MAXFILE && Addr(v, i, bn) != 0 ==>
      Refers(w, i, bn, Addr(v, i, bn))
  }

  /** No address of file `i` that `v` has changes in `w`. */
  ghost predicate AddrsStay(v: View, w: View, i: nat) {
    |w.used| == |v.used| && TopStays(v, w, i) && forall bn: nat :: AddrStays(v, w, i, bn)
  }

  lemma GrewStays(v: View, w: View, i: nat)
    requires Grew(v, w)
    ensures AddrsStay(v, w, i)
  {
    forall bn: nat ensures AddrStays(v, w, i, bn) { assert GrewAt(v, w, i, bn); }
  }

  lemma StoreStays(v: View, i: nat, bn: nat, block: seq<Byte>)
    requires Inv(v) && HasBlock(v, i, bn) && |block| == BSIZE
    ensures AddrsStay(v, Store(v, i, bn, block), i)
  {
    forall bn': nat ensures AddrStays(v, Store(v, i, bn, block), i, bn') {
      if bn' < MAXFILE { StoreAt(v, i, bn, block, i, bn'); }
    }
  }

  lemma WithinStays(v: View, w: View, i: nat, lo: nat, hi: nat, lo': nat, hi': nat, xs: set<Logged>)
    requires Within(v, i, lo, hi, xs) && AddrsStay(v, w, i) && lo' <= lo && hi <= hi'
    ensures Within(w, i, lo', hi', xs)
  {
    forall x | x in xs ensures InBudget(w, i, lo', hi', x) {
      assert InBudget(v, i, lo, hi, x);
      if x.DATA? && !(i < |w.inode| && |w.inode[i].addrs| == NDIRECT + 1 && x.b == w.inode[i].addrs[NDIRECT]) {
        var bn: nat :| lo <= bn < hi && Refers(v, i, bn, x.b);
        assert AddrStays(v, w, i, bn);
        assert lo' <= bn < hi' && Refers(w, i, bn, x.b);
      }
    }
  }

  lemma WithinWider(v: View, i: nat, lo: nat, hi: nat, lo': nat, hi': nat, xs: set<Logged>)
    requires Within(v, i, lo, hi, xs) && lo' <= lo && hi <= hi'
    ensures Within(v, i, lo', hi', xs)
  {
    forall x | x in xs ensures InBudget(v, i, lo', hi', x) { assert InBudget(v, i, lo, hi, x); }
  }

  lemma StaysTrans(v: View, w: View, x: View, i: nat)
    requires AddrsStay(v, w, i) && AddrsStay(w, x, i)
    ensures AddrsStay(v, x, i)
  {
    forall bn: nat ensures AddrStays(v, x, i, bn) { assert AddrStays(v, w, i, bn) && AddrStays(w, x, i, bn); }
  }

  lemma ResizeStays(v: View, i: nat, size: nat)
    requires i < |v.inode|
    ensures AddrsStay(v, Resize(v, i, size), i)
  {
    forall bn: nat ensures AddrStays(v, Resize(v, i, size), i, bn) {
      if |v.inode[i].addrs| == NDIRECT + 1 && bn < MAXFILE { ResizeAddr(v, i, size, i, bn); }
    }
  }

  lemma WithinUnion(v: View, i: nat, lo: nat, hi: nat, now: set<Logged>, mid: set<Logged>, before: set<Logged>)
    requires Within(v, i, lo, hi, now - mid) && Within(v, i, lo, hi, mid - before)
    ensures Within(v, i, lo, hi, now - before)
  {
  }

  /** The data blocks `lo..hi` of file `i`. */
  function DataBlocks(v: View, i: nat, lo: nat, hi: nat): (s: set<Logged>)
    requires i < |v.inode| && |v.inode[i].addrs| == NDIRECT + 1 && lo <= hi <= MAXFILE
    ensures |s| <= hi - lo && forall bn: nat :: lo <= bn < hi ==> DATA(Addr(v, i, bn)) in s
    decreases hi - lo
  {
    if lo == hi then {} else {DATA(Addr(v, i, lo))} + DataBlocks(v, i, lo + 1, hi)
  }

  /** With a free map of one block: three blocks, and one for each block of the file. */
  lemma BudgetSize(v: View, i: nat, lo: nat, hi: nat, xs: set<Logged>)
    requires Within(v, i, lo, hi, xs) && |v.used| <= BPB && lo <= hi <= MAXFILE
    requires i < |v.inode| && |v.inode[i].addrs| == NDIRECT + 1
    ensures |xs| <= 3 + (hi - lo)
  {
    var fixed := {MAP(0), INODES(i / IPB), DATA(v.inode[i].addrs[NDIRECT])};
    var all := fixed + DataBlocks(v, i, lo, hi);
    forall x | x in xs ensures x in all { assert InBudget(v, i, lo, hi, x); }
    Smaller(xs, all);
    assert |fixed| <= 3;
  }

  lemma {:induction false} Smaller(a: set<Logged>, b: set<Logged>)
    requires a <= b
    ensures |a| <= |b|
  {
    if a != {} {
      var x :| x in a;
      Smaller(a - {x}, b - {x});
    }
  }
}