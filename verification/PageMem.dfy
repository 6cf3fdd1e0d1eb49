/** Physical pages as kalloc.c and vm.c use them: a free list threaded through the free
    pages, Sv39 page tables, and the pages that they map.  A page is 512 words; an address
    is a page number times PGSIZE. */
module PageMem {
  import opened Common

  const PGSIZE := 4096
  const MAXVPN := 0x400_0000   // MAXVA / PGSIZE
  const ENTRIES := 512

  /** A page-table page: the table of level `level` for the virtual pages whose numbers,
      divided by 512 to the power `level + 1`, give `q`. */
  datatype Node = Node(level: nat, q: nat)

  /** An address space: where its table pages are, and the leaf entry of each mapped page. */
  datatype Space = Space(tab: map<Node, nat>, leaf: map<nat, nat>)

  datatype Use = FREE | TABLE(root: nat, node: Node) | DATA(owner: nat, vpn: nat) | OTHER

  /** `page` is the memory.  `free` (the free list in order), `use` (one use for every page)
      and `spaces` (by root page) are ghost. */
  datatype Mem = Mem(page: map<nat, seq<nat>>, free: seq<nat>, use: map<nat, Use>, spaces: map<nat, Space>)

  const ROOT := Node(2, 0)

  function Parent(n: Node): Node {
    Node(n.level + 1, n.q / ENTRIES)
  }

  function Child(n: Node, i: nat): Node
    requires n.level > 0
  {
    Node(n.level - 1, n.q * ENTRIES + i)
  }

  /** A valid entry that points to a table. */
  function TableEntry(f: nat): nat {
    f * 1024 + 1
  }

  lemma TableEntryBits(f: nat)
    ensures TableEntry(f) % 2 == 1 && (TableEntry(f) / 2) % 8 == 0 && TableEntry(f) / 1024 == f
  {
  }

  /** The entry `i` of table `n`, as the space's map says. */
  function Expect(s: Space, n: Node, i: nat): nat {
    if n.level > 0 then if Child(n, i) in s.tab then TableEntry(s.tab[Child(n, i)]) else 0
    else if n.q * ENTRIES + i in s.leaf then s.leaf[n.q * ENTRIES + i] else 0
  }

  predicate IsLeaf(w: nat) {
    w % 2 == 1 && (w / 2) % 8 != 0   // PTE_V, and one of PTE_R, PTE_W, PTE_X
  }

  // ----- The invariant -----

  predicate PageOk(m: Mem, f: nat) {
    f in m.use ==> f > 0 && f in m.page && |m.page[f]| == ENTRIES
  }

  predicate FreeAt(m: Mem, i: nat) {
    i < |m.free| ==>
      && var f := m.free[i];
      && f in m.use && m.use[f].FREE? && f in m.page && |m.page[f]| == ENTRIES
      && m.page[f][0] == if i + 1 < |m.free| then m.free[i + 1] * PGSIZE else 0
  }

  predicate UseOk(m: Mem, f: nat) {
    f in m.use ==>
      match m.use[f]
      case FREE => f in m.free
      case TABLE(r, n) => r in m.spaces && n in m.spaces[r].tab && m.spaces[r].tab[n] == f
      case DATA(r, v) => r in m.spaces && v in m.spaces[r].leaf && m.spaces[r].leaf[v] / 1024 == f
      case OTHER => true
  }

  predicate EntryOk(m: Mem, r: nat, n: Node, i: nat) {
    r in m.spaces && n in m.spaces[r].tab && i < ENTRIES ==>
      && var f := m.spaces[r].tab[n];
      && f in m.page && i < |m.page[f]| && m.page[f][i] == Expect(m.spaces[r], n, i)
  }

  predicate NodeOk(m: Mem, r: nat, n: Node) {
    r in m.spaces && n in m.spaces[r].tab ==>
      && var f := m.spaces[r].tab[n];
      && f in m.use && m.use[f] == TABLE(r, n)
      && (if n.level < 2 then Parent(n) in m.spaces[r].tab else n == ROOT && f == r)
  }

  predicate LeafOk(m: Mem, r: nat, v: nat) {
    r in m.spaces && v in m.spaces[r].leaf ==>
      Node(0, v / ENTRIES) in m.spaces[r].tab && IsLeaf(m.spaces[r].leaf[v]) && v < MAXVPN
  }

  predicate SpaceOk(m: Mem, r: nat) {
    r in m.spaces ==> ROOT in m.spaces[r].tab
  }

  /** Every page has one use; the free list holds exactly the free ones; the tables of every
      space are a tree of pages of their own, and their entries say exactly what its map says. */
  ghost predicate Inv(m: Mem) {
    && Distinct(m.free)
    && (forall f: nat :: PageOk(m, f))
    && (forall i: nat :: FreeAt(m, i))
    && (forall f: nat :: UseOk(m, f))
    && (forall r: nat, n: Node, i: nat :: EntryOk(m, r, n, i))
    && (forall r: nat, n: Node :: NodeOk(m, r, n))
    && (forall r: nat, v: nat :: LeafOk(m, r, v))
    && (forall r: nat :: SpaceOk(m, r))
  }

  // ----- kalloc and kfree -----

  /** Before any page is freed. */
  lemma EmptyInv(m: Mem)
    requires m.free == [] && m.spaces == map[]
    requires forall f: nat :: f in m.use ==> m.use[f].OTHER? && f > 0 && f in m.page && |m.page[f]| == ENTRIES
    ensures Inv(m)
  {
    forall f: nat ensures PageOk(m, f) && UseOk(m, f) {}
  }

  const JUNK := 0x0505_0505_0505_0505   // what kalloc fills a page with
  const FREED := 0x0101_0101_0101_0101  // what kfree fills a page with

  function Filled(w: nat): (s: seq<nat>)
    ensures |s| == ENTRIES && forall i :: 0 <= i < ENTRIES ==> s[i] == w
  {
    seq(ENTRIES, _ => w)
  }

  function Put(s: seq<nat>, i: nat, w: nat): seq<nat>
    requires i < |s|
  {
    s[i := w]
  }

  function Alloc(m: Mem): Mem
    requires |m.free| > 0
  {
    var f := m.free[0];
    m.(page := m.page[f := Filled(JUNK)], free := m.free[1..], use := m.use[f := OTHER])
  }

  lemma AllocInv(m: Mem)
    requires Inv(m) && |m.free| > 0
    ensures Inv(Alloc(m)) && m.free[0] > 0 && m.free[0] in m.use && m.use[m.free[0]].FREE?
  {
    var w, f := Alloc(m), m.free[0];
    assert FreeAt(m, 0) && PageOk(m, f);
    forall g: nat ensures PageOk(w, g) && UseOk(w, g) { assert PageOk(m, g) && UseOk(m, g); }
    forall i: nat ensures FreeAt(w, i) {
      assert FreeAt(m, i + 1);
      if i + 1 < |m.free| { assert m.free[i + 1] != m.free[0]; }
    }
    forall r: nat, n: Node, i: nat ensures EntryOk(w, r, n, i) { assert EntryOk(m, r, n, i) && NodeOk(m, r, n); }
    forall r: nat, n: Node ensures NodeOk(w, r, n) { assert NodeOk(m, r, n); }
    forall r: nat, v: nat ensures LeafOk(w, r, v) { assert LeafOk(m, r, v); }
    forall r: nat ensures SpaceOk(w, r) { assert SpaceOk(m, r); }
  }

  /** A page nobody needs any more goes to the head of the free list. */
  function Free(m: Mem, f: nat): Mem {
    var next: nat := if |m.free| > 0 then m.free[0] * PGSIZE else 0;
    m.(page := m.page[f := Put(Filled(FREED), 0, next)], free := [f] + m.free, use := m.use[f := FREE])
  }

  lemma FreeInv(m: Mem, f: nat)
    requires Inv(m) && f in m.use && m.use[f].OTHER?
    ensures Inv(Free(m, f))
  {
    var w := Free(m, f);
    assert PageOk(m, f);
    forall i | 0 <= i < |m.free| ensures m.free[i] != f { assert FreeAt(m, i); }
    forall g: nat ensures PageOk(w, g) && UseOk(w, g) { assert PageOk(m, g) && UseOk(m, g); }
    forall i: nat ensures FreeAt(w, i) { if i > 0 { assert FreeAt(m, i - 1); } else { assert FreeAt(m, 0); } }
    forall r: nat, n: Node, i: nat ensures EntryOk(w, r, n, i) { assert EntryOk(m, r, n, i) && NodeOk(m, r, n); }
    forall r: nat, n: Node ensures NodeOk(w, r, n) { assert NodeOk(m, r, n); }
    forall r: nat, v: nat ensures LeafOk(w, r, v) { assert LeafOk(m, r, v); }
    forall r: nat ensures SpaceOk(w, r) { assert SpaceOk(m, r); }
  }

  /** A page of no particular use is overwritten. */
  function Overwrite(m: Mem, f: nat, words: seq<nat>): Mem {
    m.(page := m.page[f := words])
  }

  lemma OverwriteInv(m: Mem, f: nat, words: seq<nat>)
    requires Inv(m) && f in m.use && (m.use[f].OTHER? || m.use[f].DATA?) && |words| == ENTRIES
    ensures Inv(Overwrite(m, f, words))
  {
    var w := Overwrite(m, f, words);
    forall g: nat ensures PageOk(w, g) && UseOk(w, g) { assert PageOk(m, g) && UseOk(m, g); }
    forall i: nat ensures FreeAt(w, i) { assert FreeAt(m, i); }
    forall r: nat, n: Node, i: nat ensures EntryOk(w, r, n, i) { assert EntryOk(m, r, n, i) && NodeOk(m, r, n); }
    forall r: nat, n: Node ensures NodeOk(w, r, n) { assert NodeOk(m, r, n); }
    forall r: nat, v: nat ensures LeafOk(w, r, v) { assert LeafOk(m, r, v); }
    forall r: nat ensures SpaceOk(w, r) { assert SpaceOk(m, r); }
  }

  // ----- Table pages -----

  /** walk's new table: the zeroed page `f` becomes table `n` of space `r`. */
  function AddTable(m: Mem, r: nat, n: Node, f: nat): Mem
    requires r in m.spaces && Parent(n) in m.spaces[r].tab
    requires m.spaces[r].tab[Parent(n)] in m.page && |m.page[m.spaces[r].tab[Parent(n)]]| == ENTRIES
  {
    var s := m.spaces[r];
    var t := s.tab[Parent(n)];
    m.(page := m.page[t := Put(m.page[t], n.q % ENTRIES, TableEntry(f))],
       use := m.use[f := TABLE(r, n)],
       spaces := m.spaces[r := s.(tab := s.tab[n := f])])
  }

  lemma ChildParent(p: Node, n: Node, i: nat)
    requires p.level > 0 && i < ENTRIES
    ensures Child(p, i) == n <==> p == Parent(n) && i == n.q % ENTRIES
  {
  }

  lemma TableHere(m: Mem, r: nat, n: Node)
    requires Inv(m) && r in m.spaces && n in m.spaces[r].tab
    ensures m.spaces[r].tab[n] in m.page && |m.page[m.spaces[r].tab[n]]| == ENTRIES
  {
    assert NodeOk(m, r, n) && PageOk(m, m.spaces[r].tab[n]);
  }

  lemma ChildInTab(m: Mem, r: nat, n: Node, i: nat)
    requires Inv(m) && r in m.spaces && n !in m.spaces[r].tab && n.level < 2 && i < ENTRIES
    ensures Expect(m.spaces[r], n, i) == 0
  {
    if n.level > 0 {
      ChildParent(n, Child(n, i), i);
      assert NodeOk(m, r, Child(n, i));
    } else {
      assert LeafOk(m, r, n.q * ENTRIES + i);
      assert (n.q * ENTRIES + i) / ENTRIES == n.q;
    }
  }

  predicate CanAdd(m: Mem, r: nat, n: Node, f: nat) {
    && r in m.spaces && n.level < 2 && Parent(n) in m.spaces[r].tab && n !in m.spaces[r].tab
    && m.spaces[r].tab[Parent(n)] in m.page && |m.page[m.spaces[r].tab[Parent(n)]]| == ENTRIES
    && f in m.use && m.use[f].OTHER? && f in m.page && m.page[f] == Filled(0)
  }

  lemma AddTableEntry(m: Mem, r: nat, n: Node, f: nat, r': nat, n': Node, i: nat)
    requires Inv(m) && CanAdd(m, r, n, f)
    ensures EntryOk(AddTable(m, r, n, f), r', n', i)
  {
    assert EntryOk(m, r', n', i) && NodeOk(m, r', n') && NodeOk(m, r, Parent(n));
    if i < ENTRIES {
      if r' == r && n' == n { ChildInTab(m, r, n, i); }
      if n'.level > 0 { ChildParent(n', n, i); }
    }
  }

  lemma AddTableInv(m: Mem, r: nat, n: Node, f: nat)
    requires Inv(m) && CanAdd(m, r, n, f)
    ensures Inv(AddTable(m, r, n, f))
  {
    var w := AddTable(m, r, n, f);
    assert NodeOk(m, r, Parent(n));
    forall g: nat ensures PageOk(w, g) && UseOk(w, g) { assert PageOk(m, g) && UseOk(m, g); }
    forall i: nat ensures FreeAt(w, i) { assert FreeAt(m, i); }
    forall r': nat, n': Node, i: nat ensures EntryOk(w, r', n', i) { AddTableEntry(m, r, n, f, r', n', i); }
    forall r': nat, n': Node ensures NodeOk(w, r', n') { assert NodeOk(m, r', n'); }
    forall r': nat, v: nat ensures LeafOk(w, r', v) { assert LeafOk(m, r', v); }
    forall r': nat ensures SpaceOk(w, r') { assert SpaceOk(m, r'); }
  }

  /** uvmcreate: the zeroed page `f` is the root of a new space. */
  function NewSpace(m: Mem, f: nat): Mem {
    m.(use := m.use[f := TABLE(f, ROOT)], spaces := m.spaces[f := Space(map[ROOT := f], map[])])
  }

  lemma NewSpaceInv(m: Mem, f: nat)
    requires Inv(m) && f in m.use && m.use[f].OTHER? && f in m.page && m.page[f] == Filled(0) && f !in m.spaces
    ensures Inv(NewSpace(m, f))
  {
    var w := NewSpace(m, f);
    forall g: nat ensures PageOk(w, g) && UseOk(w, g) { assert PageOk(m, g) && UseOk(m, g); }
    forall i: nat ensures FreeAt(w, i) { assert FreeAt(m, i); }
    forall r: nat, n: Node, i: nat ensures EntryOk(w, r, n, i) { assert EntryOk(m, r, n, i); }
    forall r: nat, n: Node ensures NodeOk(w, r, n) { assert NodeOk(m, r, n); }
    forall r: nat, v: nat ensures LeafOk(w, r, v) { assert LeafOk(m, r, v); }
    forall r: nat ensures SpaceOk(w, r) { assert SpaceOk(m, r); }
  }

  // ----- Leaf entries -----

  predicate HasEntry(m: Mem, r: nat, v: nat) {
    && r in m.spaces && Node(0, v / ENTRIES) in m.spaces[r].tab && v < MAXVPN
    && m.spaces[r].tab[Node(0, v / ENTRIES)] in m.page
    && |m.page[m.spaces[r].tab[Node(0, v / ENTRIES)]]| == ENTRIES
  }

  /** Page `v` of space `r` is mapped by entry `w`; a page without another use becomes its data. */
  function SetLeaf(m: Mem, r: nat, v: nat, w: nat): Mem
    requires HasEntry(m, r, v)
  {
    var s := m.spaces[r];
    var t := s.tab[Node(0, v / ENTRIES)];
    var f := w / 1024;
    m.(page := m.page[t := Put(m.page[t], v % ENTRIES, w)],
       use := if f in m.use && m.use[f].OTHER? then m.use[f := DATA(r, v)] else m.use,
       spaces := m.spaces[r := s.(leaf := s.leaf[v := w])])
  }

  /** The mapping of page `v` is gone; its data has no use any more. */
  function ClearLeaf(m: Mem, r: nat, v: nat): Mem
    requires HasEntry(m, r, v) && v in m.spaces[r].leaf
  {
    var s := m.spaces[r];
    var t := s.tab[Node(0, v / ENTRIES)];
    var f := s.leaf[v] / 1024;
    m.(page := m.page[t := Put(m.page[t], v % ENTRIES, 0)],
       use := if f in m.use && m.use[f] == DATA(r, v) then m.use[f := OTHER] else m.use,
       spaces := m.spaces[r := s.(leaf := s.leaf - {v})])
  }

  lemma Slot(q: nat, i: nat, v: nat)
    requires i < ENTRIES
    ensures q * ENTRIES + i == v <==> q == v / ENTRIES && i == v % ENTRIES
  {
  }

  lemma SetLeafEntry(m: Mem, r: nat, v: nat, w: nat, r': nat, n: Node, i: nat)
    requires Inv(m) && HasEntry(m, r, v)
    ensures EntryOk(SetLeaf(m, r, v, w), r', n, i)
  {
    assert EntryOk(m, r', n, i) && NodeOk(m, r', n) && NodeOk(m, r, Node(0, v / ENTRIES));
    if i < ENTRIES && n.level == 0 { Slot(n.q, i, v); }
  }

  lemma SetLeafInv(m: Mem, r: nat, v: nat, w: nat)
    requires Inv(m) && HasEntry(m, r, v) && v !in m.spaces[r].leaf && IsLeaf(w)
    ensures Inv(SetLeaf(m, r, v, w))
  {
    var x := SetLeaf(m, r, v, w);
    assert NodeOk(m, r, Node(0, v / ENTRIES));
    forall g: nat ensures PageOk(x, g) && UseOk(x, g) { assert PageOk(m, g) && UseOk(m, g); }
    forall i: nat ensures FreeAt(x, i) { assert FreeAt(m, i); }
    forall r': nat, n: Node, i: nat ensures EntryOk(x, r', n, i) { SetLeafEntry(m, r, v, w, r', n, i); }
    forall r': nat, n: Node ensures NodeOk(x, r', n) { assert NodeOk(m, r', n); }
    forall r': nat, v': nat ensures LeafOk(x, r', v') { assert LeafOk(m, r', v'); }
    forall r': nat ensures SpaceOk(x, r') { assert SpaceOk(m, r'); }
  }

  lemma ClearLeafEntry(m: Mem, r: nat, v: nat, r': nat, n: Node, i: nat)
    requires Inv(m) && HasEntry(m, r, v) && v in m.spaces[r].leaf
    ensures EntryOk(ClearLeaf(m, r, v), r', n, i)
  {
    assert EntryOk(m, r', n, i) && NodeOk(m, r', n) && NodeOk(m, r, Node(0, v / ENTRIES));
    if i < ENTRIES && n.level == 0 { Slot(n.q, i, v); }
  }

  lemma ClearLeafInv(m: Mem, r: nat, v: nat)
    requires Inv(m) && HasEntry(m, r, v) && v in m.spaces[r].leaf
    ensures Inv(ClearLeaf(m, r, v))
  {
    var x := ClearLeaf(m, r, v);
    assert NodeOk(m, r, Node(0, v / ENTRIES));
    forall g: nat ensures PageOk(x, g) && UseOk(x, g) { assert PageOk(m, g) && UseOk(m, g); }
    forall i: nat ensures FreeAt(x, i) { assert FreeAt(m, i); }
    forall r': nat, n: Node, i: nat ensures EntryOk(x, r', n, i) { ClearLeafEntry(m, r, v, r', n, i); }
    forall r': nat, n: Node ensures NodeOk(x, r', n) { assert NodeOk(m, r', n); }
    forall r': nat, v': nat ensures LeafOk(x, r', v') { assert LeafOk(m, r', v'); }
    forall r': nat ensures SpaceOk(x, r') { assert SpaceOk(m, r'); }
  }

  // ----- The way of walk -----

  function Power(level: nat): (p: nat)
    ensures p > 0
  {
    if level == 0 then 1 else if level == 1 then 512 else if level == 2 then 262144 else 134217728
  }

  /** PX(level, va) for virtual page `v`. */
  function Index(v: nat, level: nat): (i: nat)
    ensures i < ENTRIES
  {
    (v / Power(level)) % ENTRIES
  }

  /** The table of the given level that page `v` belongs to. */
  function TableOf(v: nat, level: nat): Node {
    Node(level, v / Power(level + 1))
  }

  lemma Path(v: nat, level: nat)
    requires v < MAXVPN && level < 2
    ensures TableOf(v, 2) == ROOT && TableOf(v, 0) == Node(0, v / ENTRIES) && Index(v, 0) == v % ENTRIES
    ensures Parent(TableOf(v, level)) == TableOf(v, level + 1)
    ensures Child(TableOf(v, level + 1), Index(v, level + 1)) == TableOf(v, level)
    ensures TableOf(v, level).q % ENTRIES == Index(v, level + 1)
  {
  }

  /** Only tables of space `r` and pages `lo..hi` of it have been added, from free pages;
      nothing that was in use has changed. */
  predicate ExtAt(m: Mem, w: Mem, r: nat, lo: nat, hi: nat, f: nat) {
    f in m.use ==>
      && f in w.use && f in m.page && f in w.page
      && (if m.use[f].FREE? then w.use[f].FREE? || (w.use[f].TABLE? && w.use[f].root == r) ||
                                 (w.use[f].DATA? && w.use[f].owner == r && lo <= w.use[f].vpn < hi)
          else w.use[f] == m.use[f] && (m.use[f].TABLE? || w.page[f] == m.page[f]))
  }

  predicate PageOf(w: Mem, r: nat, lo: nat, hi: nat, v: nat) {
    lo <= v < hi ==>
      && r in w.spaces && v in w.spaces[r].leaf && w.spaces[r].leaf[v] / 1024 in w.use
      && w.use[w.spaces[r].leaf[v] / 1024] == DATA(r, v)
  }

  ghost predicate Ext(m: Mem, w: Mem, r: nat, lo: nat, hi: nat) {
    && r in m.spaces && w.spaces.Keys == m.spaces.Keys && w.use.Keys == m.use.Keys
    && (forall r' :: r' in m.spaces && r' != r ==> w.spaces[r'] == m.spaces[r'])
    && (forall v: nat :: v in w.spaces[r].leaf <==> v in m.spaces[r].leaf || lo <= v < hi)
    && (forall v: nat :: v in m.spaces[r].leaf ==> w.spaces[r].leaf[v] == m.spaces[r].leaf[v])
    && (forall v: nat :: PageOf(w, r, lo, hi, v))
    && (forall f: nat :: ExtAt(m, w, r, lo, hi, f))
  }

  lemma ExtSame(m: Mem, r: nat, k: nat)
    requires Inv(m) && r in m.spaces
    ensures Ext(m, m, r, k, k)
  {
    forall f: nat ensures ExtAt(m, m, r, k, k, f) { assert PageOk(m, f); }
  }

  lemma ExtTrans(m: Mem, w: Mem, x: Mem, r: nat, lo: nat, mid: nat, hi: nat)
    requires Ext(m, w, r, lo, mid) && Ext(w, x, r, mid, hi) && lo <= mid <= hi
    ensures Ext(m, x, r, lo, hi)
  {
    forall f: nat ensures ExtAt(m, x, r, lo, hi, f) { assert ExtAt(m, w, r, lo, mid, f) && ExtAt(w, x, r, mid, hi, f); }
    forall v: nat ensures PageOf(x, r, lo, hi, v) {
      assert PageOf(w, r, lo, mid, v) && PageOf(x, r, mid, hi, v);
      if lo <= v < mid { assert ExtAt(w, x, r, mid, hi, w.spaces[r].leaf[v] / 1024); }
    }
  }

  /** walk's new table, from kalloc on. */
  function Sprout(m: Mem, r: nat, n: Node): Mem
    requires Inv(m) && |m.free| > 0 && r in m.spaces && n.level < 2 && Parent(n) in m.spaces[r].tab
  {
    var f := m.free[0];
    var w := Overwrite(Alloc(m), f, Filled(0));
    AllocInv(m);
    OverwriteInv(Alloc(m), f, Filled(0));
    TableHere(w, r, Parent(n));
    AddTable(w, r, n, f)
  }

  lemma SproutInv(m: Mem, r: nat, n: Node, k: nat)
    requires Inv(m) && |m.free| > 0 && r in m.spaces && n.level < 2 && Parent(n) in m.spaces[r].tab
    requires n !in m.spaces[r].tab
    ensures Inv(Sprout(m, r, n)) && Ext(m, Sprout(m, r, n), r, k, k)
    ensures m.spaces[r].tab[Parent(n)] in m.page && m.spaces[r].tab[Parent(n)] != m.free[0]
  {
    var f := m.free[0];
    AllocInv(m);
    OverwriteInv(Alloc(m), f, Filled(0));
    var w := Overwrite(Alloc(m), f, Filled(0));
    TableHere(w, r, Parent(n));
    TableHere(m, r, Parent(n));
    assert NodeOk(m, r, Parent(n)) && FreeAt(m, 0);
    AddTableInv(w, r, n, f);
    var x := Sprout(m, r, n);
    forall g: nat ensures ExtAt(m, x, r, k, k, g) { assert PageOk(m, g); }
  }

  // ----- How many free pages a mapping takes -----

  /** The tables of space `r`. */
  function Tables(m: Mem, r: nat): set<Node>
    requires r in m.spaces
  {
    m.spaces[r].tab.Keys
  }

  /** The tables below the root on the way to page `v`. */
  function Way(v: nat): set<Node> {
    {TableOf(v, 1), TableOf(v, 0)}
  }

  function Ways(lo: nat, hi: nat): set<Node> {
    if lo >= hi then {} else Ways(lo, hi - 1) + Way(hi - 1)
  }

  /** How many of them are not among `tabs`. */
  function Missing(tabs: set<Node>, v: nat): nat {
    (if TableOf(v, 1) in tabs then 0 else 1) + (if TableOf(v, 0) in tabs then 0 else 1)
  }

  /** The free pages that it takes to map pages `lo..hi`: their tables, each counted once, and
      `data` more for each of them. */
  function Needed(tabs: set<Node>, lo: nat, hi: nat, data: nat): nat
    decreases hi - lo
  {
    if lo >= hi then 0 else data + Missing(tabs, lo) + Needed(tabs + Way(lo), lo + 1, hi, data)
  }

  /** Three free pages for each page are always enough. */
  lemma {:induction false} NeededAtMost(tabs: set<Node>, lo: nat, hi: nat)
    requires lo <= hi
    ensures hi - lo <= Needed(tabs, lo, hi, 1) <= 3 * (hi - lo)
    decreases hi - lo
  {
    if lo < hi { NeededAtMost(tabs + Way(lo), lo + 1, hi); }
  }

  /** One page is mapped exactly when there are free pages for it, and takes no others. */
  predicate Spent(m: Mem, w: Mem, r: nat, v: nat, data: nat, ok: bool) {
    && r in m.spaces && r in w.spaces
    && (ok <==> |m.free| >= data + Missing(Tables(m, r), v))
    && (ok ==> |w.free| + data + Missing(Tables(m, r), v) == |m.free| && Tables(w, r) == Tables(m, r) + Way(v))
  }

  /** walk has made some of the tables on the way to page `v`. */
  predicate Walked(m: Mem, w: Mem, r: nat, v: nat) {
    && r in m.spaces && r in w.spaces && Tables(w, r) + Way(v) == Tables(m, r) + Way(v)
    && |w.free| + Missing(Tables(m, r), v) == |m.free| + Missing(Tables(w, r), v)
  }

  lemma WalkedOn(m: Mem, w: Mem, x: Mem, r: nat, v: nat, level: nat)
    requires Walked(m, w, r, v) && level < 2 && TableOf(v, level) !in Tables(w, r) && r in x.spaces
    requires |x.free| + 1 == |w.free| && Tables(x, r) == Tables(w, r) + {TableOf(v, level)}
    ensures Walked(m, x, r, v)
  {
    assert Tables(x, r) + Way(v) == Tables(w, r) + Way(v);
  }

  lemma WalkedAll(m: Mem, w: Mem, r: nat, v: nat)
    requires Walked(m, w, r, v) && Inv(w) && v < MAXVPN && TableOf(v, 0) in Tables(w, r)
    ensures Spent(m, w, r, v, 0, true)
  {
    Path(v, 0);
    assert NodeOk(w, r, TableOf(v, 0));
    assert Tables(w, r) + Way(v) == Tables(w, r);
  }

  lemma WalkedShort(m: Mem, w: Mem, r: nat, v: nat, level: nat)
    requires Walked(m, w, r, v) && level < 2 && TableOf(v, level) !in Tables(w, r) && w.free == []
    ensures Spent(m, w, r, v, 0, false)
  {
  }

  /** On the way from `lo` to `hi`, with the pages below `v` mapped. */
  predicate Spending(m: Mem, w: Mem, r: nat, lo: nat, v: nat, hi: nat, data: nat) {
    && r in m.spaces && r in w.spaces && lo <= v && Tables(w, r) == Tables(m, r) + Ways(lo, v)
    && |w.free| + Needed(Tables(m, r), lo, hi, data) == |m.free| + Needed(Tables(w, r), v, hi, data)
  }

  lemma SpendingOn(m: Mem, w: Mem, x: Mem, r: nat, lo: nat, v: nat, next: nat, hi: nat, data: nat, ok: bool)
    requires Spending(m, w, r, lo, v, hi, data) && Spent(w, x, r, v, data, ok) && v < hi && next == v + 1
    ensures if ok then Spending(m, x, r, lo, next, hi, data) else |m.free| < Needed(Tables(m, r), lo, hi, data)
  {
    assert Ways(lo, next) == Ways(lo, v) + Way(v);
  }

  /** mappages succeeds exactly when there are free pages for all tables that it lacks. */
  ghost predicate MapSpent(m: Mem, w: Mem, r: nat, lo: nat, hi: nat, ok: bool) {
    && r in m.spaces && r in w.spaces && (ok <==> |m.free| >= Needed(Tables(m, r), lo, hi, 0))
    && if ok then Spending(m, w, r, lo, hi, hi, 0) else w.free == []
  }

  lemma SpendingEnds(m: Mem, w: Mem, r: nat, lo: nat, hi: nat, data: nat)
    requires Spending(m, w, r, lo, hi, hi, data)
    ensures |m.free| == |w.free| + Needed(Tables(m, r), lo, hi, data)
  {
  }

  // ----- mappages -----

  predicate Perm(perm: nat) {
    perm < 1024 && (perm / 2) % 8 != 0   // one of PTE_R, PTE_W, PTE_X
  }

  /** PA2PTE(pa) | perm | PTE_V for page number `f`. */
  function Entry(f: nat, perm: nat): nat {
    f * 1024 + (if perm % 2 == 0 then perm + 1 else perm)
  }

  lemma LowBits(k: nat, q: nat)
    ensures (8 * k + q) % 8 == q % 8
  {
  }

  lemma EntryIs(f: nat, perm: nat)
    requires Perm(perm)
    ensures IsLeaf(Entry(f, perm)) && Entry(f, perm) / 1024 == f
    ensures Entry(f, perm) % 1024 == if perm % 2 == 0 then perm + 1 else perm
  {
    var p := if perm % 2 == 0 then perm + 1 else perm;
    assert p < 1024 && p % 2 == 1 && p / 2 == perm / 2;
    assert (f * 1024 + p) / 2 == 8 * (64 * f) + p / 2;
    LowBits(64 * f, p / 2);
  }

  /** Pages `lo..lo + n` of space `r` have been mapped to the pages from `f0` on; of what was
      in use, only pages without a particular use have got one. */
  predicate MapAt(m: Mem, w: Mem, r: nat, lo: nat, n: nat, f0: nat, g: nat) {
    g in m.use ==>
      && g in w.use && g in m.page && g in w.page
      && match m.use[g]
         case FREE => w.use[g].FREE? || (w.use[g].TABLE? && w.use[g].root == r)
         case TABLE(_, _) => w.use[g] == m.use[g]
         case DATA(_, _) => w.use[g] == m.use[g] && w.page[g] == m.page[g]
         case OTHER => w.use[g] == (if f0 <= g < f0 + n then DATA(r, lo + g - f0) else OTHER) && w.page[g] == m.page[g]
  }

  predicate MapEntry(m: Mem, w: Mem, r: nat, lo: nat, n: nat, f0: nat, perm: nat, v: nat) {
    && r in m.spaces && r in w.spaces
    && (v in w.spaces[r].leaf <==> v in m.spaces[r].leaf || lo <= v < lo + n)
    && (v in w.spaces[r].leaf ==>
          w.spaces[r].leaf[v] == if lo <= v < lo + n then Entry(f0 + (v - lo), perm) else m.spaces[r].leaf[v])
  }

  ghost predicate Mapped(m: Mem, w: Mem, r: nat, lo: nat, n: nat, f0: nat, perm: nat) {
    && w.spaces.Keys == m.spaces.Keys && w.use.Keys == m.use.Keys
    && (forall r' :: r' in m.spaces && r' != r ==> w.spaces[r'] == m.spaces[r'])
    && (forall v: nat :: MapEntry(m, w, r, lo, n, f0, perm, v))
    && (forall g: nat :: MapAt(m, w, r, lo, n, f0, g))
  }

  lemma MappedNone(m: Mem, w: Mem, r: nat, lo: nat, f0: nat, perm: nat)
    requires Ext(m, w, r, 0, 0)
    ensures Mapped(m, w, r, lo, 0, f0, perm)
  {
    forall g: nat ensures MapAt(m, w, r, lo, 0, f0, g) { assert ExtAt(m, w, r, 0, 0, g); }
  }

  lemma MappedTrans(m: Mem, w: Mem, x: Mem, r: nat, lo: nat, n: nat, mid: nat, fMid: nat, k: nat, all: nat, f0: nat,
                    perm: nat)
    requires mid == lo + n && fMid == f0 + n && all == n + k
    requires Mapped(m, w, r, lo, n, f0, perm) && Mapped(w, x, r, mid, k, fMid, perm)
    ensures Mapped(m, x, r, lo, all, f0, perm)
  {
    forall v: nat ensures MapEntry(m, x, r, lo, all, f0, perm, v) {
      assert MapEntry(m, w, r, lo, n, f0, perm, v) && MapEntry(w, x, r, mid, k, fMid, perm, v);
    }
    forall g: nat ensures MapAt(m, x, r, lo, all, f0, g) {
      assert MapAt(m, w, r, lo, n, f0, g) && MapAt(w, x, r, mid, k, fMid, g);
    }
  }

  lemma SetLeafMapped(m: Mem, r: nat, v: nat, f: nat, perm: nat)
    requires Inv(m) && HasEntry(m, r, v) && v !in m.spaces[r].leaf && Perm(perm)
    ensures Inv(SetLeaf(m, r, v, Entry(f, perm))) && Mapped(m, SetLeaf(m, r, v, Entry(f, perm)), r, v, 1, f, perm)
  {
    EntryIs(f, perm);
    SetLeafInv(m, r, v, Entry(f, perm));
    assert NodeOk(m, r, Node(0, v / ENTRIES));
    forall g: nat ensures MapAt(m, SetLeaf(m, r, v, Entry(f, perm)), r, v, 1, f, g) { assert PageOk(m, g); }
  }

  // ----- uvmunmap -----

  predicate UnmapAt(m: Mem, w: Mem, r: nat, lo: nat, hi: nat, doFree: bool, g: nat) {
    g in m.use ==>
      && g in w.use && g in m.page && g in w.page
      && if m.use[g].DATA? && m.use[g].owner == r && lo <= m.use[g].vpn < hi
         then if doFree then w.use[g].FREE? else w.use[g].OTHER? && w.page[g] == m.page[g]
         else w.use[g] == m.use[g] && (m.use[g].DATA? || m.use[g].OTHER? ==> w.page[g] == m.page[g])
  }

  predicate UnmapEntry(m: Mem, w: Mem, r: nat, lo: nat, hi: nat, v: nat) {
    && r in m.spaces && r in w.spaces
    && (v in w.spaces[r].leaf <==> v in m.spaces[r].leaf && !(lo <= v < hi))
    && (v in w.spaces[r].leaf ==> w.spaces[r].leaf[v] == m.spaces[r].leaf[v])
  }

  /** The pages `lo..hi` of space `r` are unmapped, and free if that was asked for; nothing
      else has changed. */
  ghost predicate Unmapped(m: Mem, w: Mem, r: nat, lo: nat, hi: nat, doFree: bool) {
    && r in m.spaces && w.spaces.Keys == m.spaces.Keys && w.use.Keys == m.use.Keys
    && w.spaces[r].tab == m.spaces[r].tab
    && (forall r' :: r' in m.spaces && r' != r ==> w.spaces[r'] == m.spaces[r'])
    && (forall v: nat :: UnmapEntry(m, w, r, lo, hi, v))
    && (forall g: nat :: UnmapAt(m, w, r, lo, hi, doFree, g))
  }

  lemma UnmappedNone(m: Mem, r: nat, lo: nat, doFree: bool)
    requires Inv(m) && r in m.spaces
    ensures Unmapped(m, m, r, lo, lo, doFree)
  {
    forall g: nat ensures UnmapAt(m, m, r, lo, lo, doFree, g) { assert PageOk(m, g); }
  }

  lemma UnmappedTrans(m: Mem, w: Mem, x: Mem, r: nat, lo: nat, mid: nat, hi: nat, doFree: bool)
    requires lo <= mid <= hi && Unmapped(m, w, r, lo, mid, doFree) && Unmapped(w, x, r, mid, hi, doFree)
    ensures Unmapped(m, x, r, lo, hi, doFree)
  {
    forall v: nat ensures UnmapEntry(m, x, r, lo, hi, v) {
      assert UnmapEntry(m, w, r, lo, mid, v) && UnmapEntry(w, x, r, mid, hi, v);
    }
    forall g: nat ensures UnmapAt(m, x, r, lo, hi, doFree, g) {
      assert UnmapAt(m, w, r, lo, mid, doFree, g) && UnmapAt(w, x, r, mid, hi, doFree, g);
    }
  }

  predicate OwnPage(m: Mem, r: nat, v: nat) {
    && r in m.spaces && v in m.spaces[r].leaf
    && m.spaces[r].leaf[v] / 1024 in m.use && m.use[m.spaces[r].leaf[v] / 1024] == DATA(r, v)
  }

  /** uvmunmap's effect on one page. */
  function Unmap(m: Mem, r: nat, v: nat, doFree: bool): Mem
    requires HasEntry(m, r, v) && v in m.spaces[r].leaf
  {
    var w := ClearLeaf(m, r, v);
    if doFree then Free(w, m.spaces[r].leaf[v] / 1024) else w
  }

  lemma UnmapInv(m: Mem, r: nat, v: nat, doFree: bool, hi: nat)
    requires Inv(m) && HasEntry(m, r, v) && v in m.spaces[r].leaf && (doFree ==> OwnPage(m, r, v)) && hi == v + 1
    ensures Inv(Unmap(m, r, v, doFree)) && Unmapped(m, Unmap(m, r, v, doFree), r, v, hi, doFree)
  {
    ClearLeafInv(m, r, v);
    var w, x := ClearLeaf(m, r, v), Unmap(m, r, v, doFree);
    if doFree { FreeInv(w, m.spaces[r].leaf[v] / 1024); }
    assert NodeOk(m, r, Node(0, v / ENTRIES));
    forall g: nat ensures UnmapAt(m, x, r, v, hi, doFree, g) { assert PageOk(m, g) && UseOk(m, g); }
  }

  lemma LeafEntry(m: Mem, r: nat, v: nat)
    requires Inv(m) && r in m.spaces && v in m.spaces[r].leaf
    ensures HasEntry(m, r, v) && TableOf(v, 0) == Node(0, v / ENTRIES) && Index(v, 0) == v % ENTRIES
    ensures var t := m.spaces[r].tab[Node(0, v / ENTRIES)];
      && m.page[t][Index(v, 0)] == m.spaces[r].leaf[v] && IsLeaf(m.spaces[r].leaf[v])
      && (OwnPage(m, r, v) ==> m.spaces[r].leaf[v] / 1024 != t && m.spaces[r].leaf[v] / 1024 in m.page)
  {
    var n := Node(0, v / ENTRIES);
    assert LeafOk(m, r, v) && EntryOk(m, r, n, v % ENTRIES) && NodeOk(m, r, n);
    TableHere(m, r, n);
    Path(v, 0);
    Slot(v / ENTRIES, v % ENTRIES, v);
    assert PageOk(m, m.spaces[r].leaf[v] / 1024);
  }

  // ----- Adding pages and taking them back -----

  /** A page from kalloc, with its new contents. */
  function Loaded(m: Mem, words: seq<nat>): Mem
    requires |m.free| > 0
  {
    Overwrite(Alloc(m), m.free[0], words)
  }

  lemma LoadedInv(m: Mem, words: seq<nat>)
    requires Inv(m) && |m.free| > 0 && |words| == ENTRIES
    ensures Inv(Loaded(m, words))
    ensures m.free[0] > 0 && m.free[0] in m.use && m.use[m.free[0]].FREE? && Loaded(m, words).use[m.free[0]].OTHER?
  {
    AllocInv(m);
    OverwriteInv(Alloc(m), m.free[0], words);
  }

  /** A page of data and what mappages takes for it. */
  lemma PageSpent(m: Mem, words: seq<nat>, w: Mem, r: nat, v: nat, next: nat, ok: bool)
    requires |m.free| > 0 && r in m.spaces && next == v + 1 && MapSpent(Loaded(m, words), w, r, v, next, ok)
    ensures Spent(m, w, r, v, 1, ok)
  {
    var l := Loaded(m, words);
    assert Needed(Tables(l, r), v, next, 0) == Missing(Tables(m, r), v) && Ways(v, next) == Ways(v, v) + Way(v);
    if ok { SpendingEnds(l, w, r, v, next, 0); }
  }

  /** Page `v` of space `r` has these contents and flags. */
  predicate Holds(w: Mem, r: nat, v: nat, words: seq<nat>, flags: nat) {
    && r in w.spaces && v in w.spaces[r].leaf && w.spaces[r].leaf[v] / 1024 in w.page
    && w.page[w.spaces[r].leaf[v] / 1024] == words && w.spaces[r].leaf[v] % 1024 == flags
  }

  lemma PageAdded(m: Mem, words: seq<nat>, w: Mem, r: nat, v: nat, hi: nat, perm: nat)
    requires Inv(m) && |m.free| > 0 && |words| == ENTRIES && r in m.spaces && Perm(perm) && hi == v + 1
    requires v !in m.spaces[r].leaf && Mapped(Loaded(m, words), w, r, v, 1, m.free[0], perm)
    ensures Ext(m, w, r, v, hi) && Holds(w, r, v, words, Entry(0, perm))
  {
    LoadedInv(m, words);
    var f, m1 := m.free[0], Loaded(m, words);
    EntryIs(f, perm);
    assert MapEntry(m1, w, r, v, 1, f, perm, v) && MapAt(m1, w, r, v, 1, f, f);
    forall u: nat ensures u in w.spaces[r].leaf <==> u in m.spaces[r].leaf || v <= u < hi {
      assert MapEntry(m1, w, r, v, 1, f, perm, u);
    }
    forall u: nat | u in m.spaces[r].leaf && u != v ensures w.spaces[r].leaf[u] == m.spaces[r].leaf[u] {
      assert MapEntry(m1, w, r, v, 1, f, perm, u);
    }
    forall g: nat ensures ExtAt(m, w, r, v, hi, g) { assert MapAt(m1, w, r, v, 1, f, g) && PageOk(m, g); }
  }

  lemma PageGivenBack(m: Mem, words: seq<nat>, w: Mem, r: nat, v: nat, perm: nat)
    requires Inv(m) && |m.free| > 0 && |words| == ENTRIES && r in m.spaces && Inv(w)
    requires Mapped(Loaded(m, words), w, r, v, 0, m.free[0], perm)
    ensures m.free[0] in w.page && Inv(Free(w, m.free[0])) && Ext(m, Free(w, m.free[0]), r, v, v)
  {
    LoadedInv(m, words);
    var f, m1 := m.free[0], Loaded(m, words);
    assert MapAt(m1, w, r, v, 0, f, f);
    FreeInv(w, f);
    var x := Free(w, f);
    forall u: nat ensures u in x.spaces[r].leaf <==> u in m.spaces[r].leaf {
      assert MapEntry(m1, w, r, v, 0, f, perm, u);
    }
    forall u: nat | u in m.spaces[r].leaf ensures x.spaces[r].leaf[u] == m.spaces[r].leaf[u] {
      assert MapEntry(m1, w, r, v, 0, f, perm, u);
    }
    forall g: nat ensures ExtAt(m, x, r, v, v, g) { assert MapAt(m1, w, r, v, 0, f, g) && PageOk(m, g); }
  }

  /** Unmapping what was added restores every mapping and every page that was in use. */
  lemma Undone(m: Mem, w: Mem, x: Mem, r: nat, lo: nat, hi: nat)
    requires Inv(m) && Ext(m, w, r, lo, hi) && Unmapped(w, x, r, lo, hi, true)
    requires forall v: nat :: lo <= v < hi ==> v !in m.spaces[r].leaf
    ensures Ext(m, x, r, lo, lo)
  {
    forall u: nat ensures u in x.spaces[r].leaf <==> u in m.spaces[r].leaf { assert UnmapEntry(w, x, r, lo, hi, u); }
    forall u: nat | u in m.spaces[r].leaf ensures x.spaces[r].leaf[u] == m.spaces[r].leaf[u] {
      assert UnmapEntry(w, x, r, lo, hi, u);
    }
    forall g: nat ensures ExtAt(m, x, r, lo, lo, g) {
      assert ExtAt(m, w, r, lo, hi, g) && UnmapAt(w, x, r, lo, hi, true, g);
      AddedOnly(m, w, r, lo, hi, g);
    }
  }

  /** The pages in the range are new. */
  lemma AddedOnly(m: Mem, w: Mem, r: nat, lo: nat, hi: nat, g: nat)
    requires Inv(m) && Ext(m, w, r, lo, hi) && forall v: nat :: lo <= v < hi ==> v !in m.spaces[r].leaf
    ensures g in m.use && g in w.use && w.use[g].DATA? && w.use[g].owner == r && lo <= w.use[g].vpn < hi ==>
              m.use[g].FREE?
  {
    assert ExtAt(m, w, r, lo, hi, g) && UseOk(m, g);
  }

  lemma HoldsOn(m: Mem, w: Mem, r: nat, lo: nat, mid: nat, hi: nat, v: nat, words: seq<nat>, flags: nat)
    requires Ext(m, w, r, mid, hi) && lo <= v < mid && PageOf(m, r, lo, mid, v) && Holds(m, r, v, words, flags)
    ensures Holds(w, r, v, words, flags)
  {
    assert ExtAt(m, w, r, mid, hi, m.spaces[r].leaf[v] / 1024);
  }

  /** Pages `lo..hi` of space `r` are zeroed pages of its own with these flags. */
  ghost predicate Zeroed(w: Mem, r: nat, lo: nat, hi: nat, flags: nat) {
    forall v: nat :: lo <= v < hi ==> Holds(w, r, v, Filled(0), flags)
  }

  /** Pages `..hi` of space `rn` of `w` equal those of `ro` of `m`, contents and flags. */
  ghost predicate Copied(m: Mem, ro: nat, w: Mem, rn: nat, hi: nat) {
    forall v: nat :: v < hi ==> CopiedPage(m, ro, w, rn, v)
  }

  predicate CopiedPage(m: Mem, ro: nat, w: Mem, rn: nat, v: nat) {
    && ro in m.spaces && v in m.spaces[ro].leaf && m.spaces[ro].leaf[v] / 1024 in m.page
    && Holds(w, rn, v, m.page[m.spaces[ro].leaf[v] / 1024], m.spaces[ro].leaf[v] % 1024)
  }

  lemma ZeroedOn(m: Mem, w: Mem, r: nat, lo: nat, mid: nat, hi: nat, flags: nat)
    requires hi == mid + 1 && Ext(m, w, r, mid, hi) && (forall v: nat :: PageOf(m, r, lo, mid, v))
    requires Zeroed(m, r, lo, mid, flags) && Holds(w, r, mid, Filled(0), flags)
    ensures Zeroed(w, r, lo, hi, flags)
  {
    forall v: nat | lo <= v < hi ensures Holds(w, r, v, Filled(0), flags) {
      if v < mid {
        assert PageOf(m, r, lo, mid, v) && Holds(m, r, v, Filled(0), flags);
        HoldsOn(m, w, r, lo, mid, hi, v, Filled(0), flags);
      }
    }
  }

  lemma CopiedOn(m0: Mem, ro: nat, m: Mem, w: Mem, rn: nat, mid: nat, hi: nat)
    requires hi == mid + 1 && Ext(m, w, rn, mid, hi) && (forall v: nat :: PageOf(m, rn, 0, mid, v))
    requires Copied(m0, ro, m, rn, mid) && CopiedPage(m0, ro, w, rn, mid)
    ensures Copied(m0, ro, w, rn, hi)
  {
    forall v: nat | v < hi ensures CopiedPage(m0, ro, w, rn, v) {
      if v < mid {
        assert PageOf(m, rn, 0, mid, v) && CopiedPage(m0, ro, m, rn, v);
        HoldsOn(m, w, rn, 0, mid, hi, v, m0.page[m0.spaces[ro].leaf[v] / 1024], m0.spaces[ro].leaf[v] % 1024);
      }
    }
  }

  // ----- freewalk -----

  /** The entry `i` of the table page `t` is cleared. */
  function Patch(m: Mem, t: nat, i: nat): Mem
    requires t in m.page && i < |m.page[t]|
  {
    m.(page := m.page[t := Put(m.page[t], i, 0)])
  }

  /** Table `n`, which has no children, leaves its space; its page is still to be freed and
      its parent's entry still to be cleared. */
  function Detach(m: Mem, r: nat, n: Node): Mem
    requires r in m.spaces && n in m.spaces[r].tab
  {
    var s := m.spaces[r];
    m.(use := m.use[s.tab[n] := OTHER],
       spaces := if n == ROOT then m.spaces - {r} else m.spaces[r := s.(tab := s.tab - {n})])
  }

  predicate Childless(m: Mem, r: nat, n: Node) {
    && r in m.spaces && n in m.spaces[r].tab && m.spaces[r].leaf == map[]
    && (n.level > 0 ==> forall i :: 0 <= i < ENTRIES ==> Child(n, i) !in m.spaces[r].tab)
  }

  /** The parent's frame, where `n` has one. */
  predicate HasParent(m: Mem, r: nat, n: Node) {
    && r in m.spaces && n.level < 2 && Parent(n) in m.spaces[r].tab
    && m.spaces[r].tab[Parent(n)] in m.page && |m.page[m.spaces[r].tab[Parent(n)]]| == ENTRIES
  }

  lemma NotAParent(m: Mem, r: nat, n: Node, x: Node)
    requires Childless(m, r, n) && x in m.spaces[r].tab
    ensures Parent(x) != n
  {
    if n.level > 0 {
      assert Child(n, x.q % ENTRIES) !in m.spaces[r].tab;
      ChildParent(n, x, x.q % ENTRIES);
    }
  }

  lemma DetachNode(m: Mem, r: nat, n: Node, r': nat, x: Node)
    requires Inv(m) && Childless(m, r, n) && HasParent(m, r, n)
    ensures NodeOk(Patch(Detach(m, r, n), m.spaces[r].tab[Parent(n)], n.q % ENTRIES), r', x)
  {
    assert NodeOk(m, r', x) && NodeOk(m, r, n);
    if r' == r && x in m.spaces[r].tab { NotAParent(m, r, n, x); }
  }

  lemma DetachEntry(m: Mem, r: nat, n: Node, r': nat, x: Node, i: nat)
    requires Inv(m) && Childless(m, r, n) && HasParent(m, r, n)
    ensures EntryOk(Patch(Detach(m, r, n), m.spaces[r].tab[Parent(n)], n.q % ENTRIES), r', x, i)
  {
    assert EntryOk(m, r', x, i) && NodeOk(m, r', x) && NodeOk(m, r, Parent(n));
    if i < ENTRIES && x.level > 0 { ChildParent(x, n, i); }
  }

  lemma DetachInv(m: Mem, r: nat, n: Node)
    requires Inv(m) && Childless(m, r, n) && HasParent(m, r, n)
    ensures Inv(Patch(Detach(m, r, n), m.spaces[r].tab[Parent(n)], n.q % ENTRIES))
  {
    var w := Patch(Detach(m, r, n), m.spaces[r].tab[Parent(n)], n.q % ENTRIES);
    assert NodeOk(m, r, n) && NodeOk(m, r, Parent(n));
    forall g: nat ensures PageOk(w, g) && UseOk(w, g) { assert PageOk(m, g) && UseOk(m, g); }
    forall i: nat ensures FreeAt(w, i) { assert FreeAt(m, i); }
    forall r': nat, x: Node, i: nat ensures EntryOk(w, r', x, i) { DetachEntry(m, r, n, r', x, i); }
    forall r': nat, x: Node ensures NodeOk(w, r', x) { DetachNode(m, r, n, r', x); }
    forall r': nat, v: nat ensures LeafOk(w, r', v) { assert LeafOk(m, r', v); }
    forall r': nat ensures SpaceOk(w, r') { assert SpaceOk(m, r'); }
  }

  /** When all children of the root are gone, no other table is left. */
  lemma OnlyRoot(m: Mem, r: nat, x: Node)
    requires Inv(m) && Childless(m, r, ROOT) && x in m.spaces[r].tab
    ensures x == ROOT
  {
    assert NodeOk(m, r, x);
    if x.level < 2 {
      assert NodeOk(m, r, Parent(x));
      NotAParent(m, r, ROOT, x);
      if x.level == 0 {
        assert NodeOk(m, r, Parent(Parent(x)));
        NotAParent(m, r, ROOT, Parent(x));
      }
    }
  }

  lemma DetachRoot(m: Mem, r: nat)
    requires Inv(m) && Childless(m, r, ROOT)
    ensures Inv(Detach(m, r, ROOT))
  {
    var w := Detach(m, r, ROOT);
    assert NodeOk(m, r, ROOT);
    forall g: nat ensures PageOk(w, g) && UseOk(w, g) {
      assert PageOk(m, g) && UseOk(m, g);
      if g in m.use && m.use[g].TABLE? && m.use[g].root == r { OnlyRoot(m, r, m.use[g].node); }
    }
    forall i: nat ensures FreeAt(w, i) { assert FreeAt(m, i); }
    forall r': nat, x: Node, i: nat ensures EntryOk(w, r', x, i) { assert EntryOk(m, r', x, i); }
    forall r': nat, x: Node ensures NodeOk(w, r', x) { assert NodeOk(m, r', x); }
    forall r': nat, v: nat ensures LeafOk(w, r', v) { assert LeafOk(m, r', v); }
    forall r': nat ensures SpaceOk(w, r') { assert SpaceOk(m, r'); }
  }

  /** The pages of the tables in `gone` are free; nothing else has changed use. */
  predicate PruneAt(m: Mem, w: Mem, r: nat, gone: set<Node>, g: nat) {
    g in m.use ==>
      && g in w.use && g in m.page && g in w.page
      && if m.use[g].TABLE? && m.use[g].root == r && m.use[g].node in gone then w.use[g].FREE?
         else w.use[g] == m.use[g] && (m.use[g].DATA? || m.use[g].OTHER? ==> w.page[g] == m.page[g])
  }

  ghost predicate Pruned(m: Mem, w: Mem, r: nat, gone: set<Node>) {
    && r in m.spaces && w.use.Keys == m.use.Keys
    && (if ROOT in gone then w.spaces == m.spaces - {r}
        else
          && w.spaces.Keys == m.spaces.Keys && w.spaces[r].tab == m.spaces[r].tab - gone
          && w.spaces[r].leaf == m.spaces[r].leaf)
    && (forall r' :: r' in m.spaces && r' != r ==> r' in w.spaces && w.spaces[r'] == m.spaces[r'])
    && (forall g: nat :: PruneAt(m, w, r, gone, g))
  }

  lemma PrunedTrans(m: Mem, w: Mem, x: Mem, r: nat, gone: set<Node>, more: set<Node>)
    requires ROOT !in gone && Pruned(m, w, r, gone) && Pruned(w, x, r, more)
    ensures Pruned(m, x, r, gone + more)
  {
    forall g: nat ensures PruneAt(m, x, r, gone + more, g) {
      assert PruneAt(m, w, r, gone, g) && PruneAt(w, x, r, more, g);
    }
    if ROOT !in more { assert m.spaces[r].tab - (gone + more) == (m.spaces[r].tab - gone) - more; }
    else { assert w.spaces - {r} == m.spaces - {r}; }
  }

  /** The state that freewalk's caller sees once it has cleared its entry. */
  function Seen(w: Mem, m: Mem, r: nat, n: Node): Mem
    requires n == ROOT || HasParent(m, r, n)
  {
    if n == ROOT then w
    else w.(page := w.page[m.spaces[r].tab[Parent(n)] :=
      if m.spaces[r].tab[Parent(n)] in w.page && |w.page[m.spaces[r].tab[Parent(n)]]| == ENTRIES
      then Put(w.page[m.spaces[r].tab[Parent(n)]], n.q % ENTRIES, 0) else []])
  }

  /** freewalk's last line: the table's own page is freed. */
  lemma DropPruned(m: Mem, r: nat, n: Node)
    requires Inv(m) && Childless(m, r, n) && (n == ROOT || HasParent(m, r, n))
    ensures var w := Seen(Free(Detach(m, r, n), m.spaces[r].tab[n]), m, r, n);
      Inv(w) && Pruned(m, w, r, {n})
  {
    var f := m.spaces[r].tab[n];
    assert NodeOk(m, r, n) && PageOk(m, f);
    var w := Seen(Free(Detach(m, r, n), f), m, r, n);
    if n == ROOT {
      DetachRoot(m, r);
      FreeInv(Detach(m, r, n), f);
    } else {
      var t := m.spaces[r].tab[Parent(n)];
      assert NodeOk(m, r, Parent(n));
      DetachInv(m, r, n);
      var d := Patch(Detach(m, r, n), t, n.q % ENTRIES);
      FreeInv(d, f);
      assert w == Free(d, f);
    }
    forall g: nat ensures PruneAt(m, w, r, {n}, g) { assert PageOk(m, g) && UseOk(m, g); }
  }

  /** The pages of space `r` are free; every other page keeps its use and its contents. */
  predicate Released(m: Mem, w: Mem, r: nat, g: nat) {
    g in m.use ==>
      && g in w.use && g in m.page && g in w.page
      && if (m.use[g].TABLE? && m.use[g].root == r) || (m.use[g].DATA? && m.use[g].owner == r) then w.use[g].FREE?
         else w.use[g] == m.use[g] && (m.use[g].DATA? || m.use[g].OTHER? ==> w.page[g] == m.page[g])
  }

  lemma NotARoot(m: Mem, f: nat)
    requires Inv(m) && f in m.use && m.use[f].FREE?
    ensures f !in m.spaces
  {
    assert SpaceOk(m, f) && NodeOk(m, f, ROOT);
  }
}