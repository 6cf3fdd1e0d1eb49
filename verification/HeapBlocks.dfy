/** The memory that umalloc.c manages: a circular, address-sorted list of free blocks and the
    blocks that malloc has given out.  Addresses count headers (16 bytes). */
module HeapBlocks {
  const BASE: nat := 1   // &base, below everything that sbrk returns

  datatype Header = Header(ptr: nat, size: nat)

  /** `list` is the free list in the order of its links, from `base`; `live` are the headers
      of the blocks in use; `owner` names, for every unit that sbrk has returned, the block
      that it belongs to.  The three are ghost: the program has only `mem` and freep. */
  datatype View = View(mem: map<nat, Header>, list: seq<nat>, live: set<nat>, owner: map<nat, nat>)

  function Next(list: seq<nat>, i: nat): nat {
    if i + 1 < |list| then i + 1 else 0
  }

  /** Node `i` is linked to its successor and ends at or before it. */
  predicate LinkOk(v: View, i: nat) {
    i < |v.list| ==>
      && v.list[i] in v.mem && v.mem[v.list[i]].ptr == v.list[Next(v.list, i)]
      && (i + 1 < |v.list| ==> v.list[i] + v.mem[v.list[i]].size <= v.list[i + 1])
  }

  predicate Sorted(list: seq<nat>) {
    forall i, j :: 0 <= i < j < |list| ==> list[i] < list[j]
  }

  predicate UnitOf(v: View, a: nat, u: nat) {
    u in v.owner && v.owner[u] == a
  }

  /** Block `a` owns exactly the units from its header on that its size says. */
  ghost predicate BlockOk(v: View, a: nat) {
    && a in v.mem && v.mem[a].size >= 1
    && forall u: nat :: UnitOf(v, a, u) <==> a <= u < a + v.mem[a].size
  }

  /** Every unit belongs to a block in use or to a free one. */
  predicate HomeOk(v: View, u: nat) {
    u in v.owner ==>
      && u in v.mem && u > BASE
      && (v.owner[u] in v.live || (v.owner[u] in v.list && v.owner[u] != BASE))
  }

  ghost predicate FreeOk(v: View, i: nat) {
    0 < i < |v.list| ==> BlockOk(v, v.list[i]) && v.list[i] !in v.live
  }

  ghost predicate Sound(v: View) {
    && |v.list| > 0 && v.list[0] == BASE && BASE in v.mem && v.mem[BASE].size == 0 && Sorted(v.list)
    && (forall i: nat :: LinkOk(v, i))
    && (forall i: nat :: FreeOk(v, i))
    && (forall a :: a in v.live ==> BlockOk(v, a) && a != BASE)
    && (forall u: nat :: HomeOk(v, u))
  }

  /** Node `i` and its successor are not adjacent. */
  predicate Apart(v: View, i: nat) {
    i + 1 < |v.list| && v.list[i] in v.mem ==> v.list[i] + v.mem[v.list[i]].size < v.list[i + 1]
  }

  /** Allocated and free blocks partition the memory; the free list is one sorted cycle
      without adjacent blocks. */
  ghost predicate Valid(v: View) {
    Sound(v) && forall i: nat :: Apart(v, i)
  }

  // ----- free: put a block into the list, then merge it with its neighbours -----

  function Insert(v: View, j: nat, b: nat): View
    requires j < |v.list| && v.list[j] in v.mem && b in v.mem
  {
    var p := v.list[j];
    View(v.mem[b := Header(v.mem[p].ptr, v.mem[b].size)][p := Header(b, v.mem[p].size)],
         v.list[..j + 1] + [b] + v.list[j + 1..], v.live - {b}, v.owner)
  }

  /** The place of `b` in the list. */
  predicate Before(v: View, j: nat, b: nat) {
    j < |v.list| && v.list[j] < b && (j + 1 < |v.list| ==> b < v.list[j + 1])
  }

  lemma Disjoint(v: View, a: nat, b: nat)
    requires BlockOk(v, a) && BlockOk(v, b) && a < b
    ensures a + v.mem[a].size <= b
  {
    assert UnitOf(v, b, b);
    assert !UnitOf(v, a, b);
  }

  lemma Gaps(v: View, j: nat, b: nat)
    requires Sound(v) && b in v.live && Before(v, j, b)
    ensures v.list[j] in v.mem && v.list[j] + v.mem[v.list[j]].size <= b
    ensures b in v.mem && (j + 1 < |v.list| ==> b + v.mem[b].size <= v.list[j + 1])
  {
    assert FreeOk(v, j) && FreeOk(v, j + 1) && LinkOk(v, j) && LinkOk(v, j + 1);
    if j > 0 { Disjoint(v, v.list[j], b); }
    if j + 1 < |v.list| { Disjoint(v, b, v.list[j + 1]); }
  }

  /** `b` can go between node `j` and its successor. */
  predicate Fits(v: View, j: nat, b: nat) {
    && Before(v, j, b) && v.list[j] in v.mem && b in v.mem
    && v.list[j] + v.mem[v.list[j]].size <= b && (j + 1 < |v.list| ==> b + v.mem[b].size <= v.list[j + 1])
  }

  predicate InsertedAt(l: seq<nat>, j: nat, b: nat, l': seq<nat>, i: nat) {
    i < |l'| == |l| + 1 && j < |l| ==> l'[i] == if i <= j then l[i] else if i == j + 1 then b else l[i - 1]
  }

  lemma InsertList(v: View, j: nat, b: nat)
    requires Fits(v, j, b)
    ensures |Insert(v, j, b).list| == |v.list| + 1
    ensures forall i: nat :: InsertedAt(v.list, j, b, Insert(v, j, b).list, i)
  {
  }

  lemma InsertSorted(l: seq<nat>, j: nat, b: nat, l': seq<nat>)
    requires Sorted(l) && j < |l| && |l'| == |l| + 1 && l[j] < b && (j + 1 < |l| ==> b < l[j + 1])
    requires forall i: nat :: InsertedAt(l, j, b, l', i)
    ensures Sorted(l')
  {
    forall m, n | 0 <= m < n < |l'| ensures l'[m] < l'[n] {
      assert InsertedAt(l, j, b, l', m) && InsertedAt(l, j, b, l', n);
    }
  }

  lemma InsertMem(v: View, j: nat, b: nat, k: nat)
    requires Fits(v, j, b) && Sorted(v.list) && k < |v.list| && v.list[k] in v.mem
    ensures v.list[k] in Insert(v, j, b).mem
    ensures Insert(v, j, b).mem[v.list[k]] ==
              if k == j then Header(b, v.mem[v.list[j]].size) else v.mem[v.list[k]]
    ensures b in Insert(v, j, b).mem
    ensures Insert(v, j, b).mem[b] == Header(v.mem[v.list[j]].ptr, v.mem[b].size)
  {
    assert k < j ==> v.list[k] < v.list[j];
    assert j < k ==> v.list[j] < v.list[k];
    assert j + 1 < k ==> v.list[j + 1] < v.list[k];
  }

  lemma InsertLink(v: View, j: nat, b: nat, i: nat)
    requires Fits(v, j, b) && Sorted(v.list)
    requires LinkOk(v, i) && (i > 0 ==> LinkOk(v, i - 1)) && LinkOk(v, j)
    ensures LinkOk(Insert(v, j, b), i)
    ensures i != j && i != j + 1 && Apart(v, if i < j then i else i - 1) ==> Apart(Insert(v, j, b), i)
  {
    var w := Insert(v, j, b);
    InsertList(v, j, b);
    assert InsertedAt(v.list, j, b, w.list, i) && InsertedAt(v.list, j, b, w.list, i + 1);
    assert InsertedAt(v.list, j, b, w.list, 0);
    if i < |w.list| {
      InsertMem(v, j, b, if i <= j then i else i - 1);
      assert Next(w.list, i) < |w.list| && (i + 1 < |w.list| ==> Next(w.list, i) == i + 1);
    }
  }

  lemma SameBlock(v: View, w: View, a: nat)
    requires BlockOk(v, a) && w.owner == v.owner && a in w.mem && w.mem[a].size == v.mem[a].size
    ensures BlockOk(w, a)
  {
    forall u: nat ensures UnitOf(w, a, u) <==> UnitOf(v, a, u) {}
  }

  lemma InsertSound(v: View, j: nat, b: nat)
    requires Sound(v) && b in v.live && Before(v, j, b)
    ensures v.list[j] in v.mem && b in v.mem && Sound(Insert(v, j, b))
    ensures forall i: nat :: i != j && i != j + 1 && Apart(v, if i < j then i else i - 1) ==> Apart(Insert(v, j, b), i)
  {
    Gaps(v, j, b);
    var w := Insert(v, j, b);
    InsertList(v, j, b);
    InsertSorted(v.list, j, b, w.list);
    forall i: nat
      ensures LinkOk(w, i)
      ensures i != j && i != j + 1 && Apart(v, if i < j then i else i - 1) ==> Apart(w, i)
    {
      assert LinkOk(v, i) && LinkOk(v, j);
      if i > 0 { assert LinkOk(v, i - 1); }
      InsertLink(v, j, b, i);
    }
    forall i: nat ensures FreeOk(w, i) {
      assert FreeOk(v, i) && InsertedAt(v.list, j, b, w.list, i);
      if i > 0 { assert FreeOk(v, i - 1); }
      if 0 < i < |w.list| { SameBlock(v, w, w.list[i]); }
    }
    forall a | a in w.live ensures BlockOk(w, a) { SameBlock(v, w, a); }
    forall u: nat ensures HomeOk(w, u) {
      assert HomeOk(v, u);
      if u in v.owner && v.owner[u] in v.list { InsertKeeps(v.list, j, b, w.list, v.owner[u]); }
      assert InsertedAt(v.list, j, b, w.list, j + 1);
    }
    assert InsertedAt(v.list, j, b, w.list, 0);
  }

  lemma InsertKeeps(l: seq<nat>, j: nat, b: nat, l': seq<nat>, a: nat)
    requires a in l && j < |l| && |l'| == |l| + 1 && forall i: nat :: InsertedAt(l, j, b, l', i)
    ensures a in l'
  {
    var k :| 0 <= k < |l| && l[k] == a;
    assert InsertedAt(l, j, b, l', if k <= j then k else k + 1);
  }

  // ----- Taking a node out of the list -----

  function Without(l: seq<nat>, i: nat): seq<nat>
    requires i + 1 < |l|
  {
    l[..i + 1] + l[i + 2..]
  }

  predicate RemovedAt(l: seq<nat>, i: nat, l': seq<nat>, k: nat) {
    k < |l'| && |l'| + 1 == |l| ==> l'[k] == if k <= i then l[k] else l[k + 1]
  }

  lemma RemoveList(l: seq<nat>, i: nat)
    requires i + 1 < |l| && Sorted(l)
    ensures |Without(l, i)| + 1 == |l| && Sorted(Without(l, i))
    ensures forall k: nat :: RemovedAt(l, i, Without(l, i), k)
    ensures forall a :: a in l && a != l[i + 1] ==> a in Without(l, i)
    ensures l[i + 1] !in Without(l, i)
  {
    var l' := Without(l, i);
    forall a | a in l && a != l[i + 1] ensures a in l' {
      var k :| 0 <= k < |l| && l[k] == a;
      assert l'[if k <= i then k else k - 1] == a;
    }
  }

  /** Node `i + 1` leaves the list and node `i` takes its link and the size `n`. */
  function Bypass(v: View, i: nat, n: nat): map<nat, Header>
    requires i + 1 < |v.list| && v.list[i + 1] in v.mem
  {
    v.mem[v.list[i] := Header(v.mem[v.list[i + 1]].ptr, n)]
  }

  lemma BypassLink(v: View, w: View, i: nat, n: nat, k: nat)
    requires Sorted(v.list) && i + 1 < |v.list| && LinkOk(v, i + 1) && LinkOk(v, if k < i then k else k + 1)
    requires i + 2 < |v.list| ==> v.list[i] + n <= v.list[i + 2]
    requires w.list == Without(v.list, i) && w.mem == Bypass(v, i, n)
    ensures LinkOk(w, k)
    ensures k != i && Apart(v, if k < i then k else k + 1) ==> Apart(w, k)
    ensures k == i && (i + 2 < |v.list| ==> v.list[i] + n < v.list[i + 2]) ==> Apart(w, k)
  {
    RemoveList(v.list, i);
    assert RemovedAt(v.list, i, w.list, k) && RemovedAt(v.list, i, w.list, k + 1) && RemovedAt(v.list, i, w.list, 0);
    if k < |w.list| && k != i {
      var m := if k < i then k else k + 1;
      assert k < i ==> v.list[m] < v.list[i];
      assert i < k ==> v.list[i] < v.list[m];
    }
  }

  /** free's coalescing: node `i` swallows its neighbour. */
  function Merge(v: View, i: nat): View
    requires i + 1 < |v.list| && v.list[i] in v.mem && v.list[i + 1] in v.mem
  {
    var a, c := v.list[i], v.list[i + 1];
    View(Bypass(v, i, v.mem[a].size + v.mem[c].size), Without(v.list, i), v.live,
         map u | u in v.owner :: if v.owner[u] == c then a else v.owner[u])
  }

  /** malloc's exact fit: node `i + 1` is in use. */
  function Take(v: View, i: nat): View
    requires i + 1 < |v.list| && v.list[i] in v.mem && v.list[i + 1] in v.mem
  {
    View(Bypass(v, i, v.mem[v.list[i]].size), Without(v.list, i), v.live + {v.list[i + 1]}, v.owner)
  }

  predicate Adjacent(v: View, i: nat) {
    && i + 1 < |v.list| && v.list[i] in v.mem && v.list[i + 1] in v.mem
    && v.list[i] + v.mem[v.list[i]].size == v.list[i + 1]
  }

  lemma MergeBlock(v: View, i: nat, a: nat)
    requires Sound(v) && Adjacent(v, i) && i > 0 && BlockOk(v, a) && a != v.list[i + 1]
    ensures BlockOk(Merge(v, i), a)
  {
    var w, p, c := Merge(v, i), v.list[i], v.list[i + 1];
    assert FreeOk(v, i) && FreeOk(v, i + 1);
    forall u: nat ensures UnitOf(w, a, u) <==> a <= u < a + w.mem[a].size {
      assert UnitOf(v, a, u) <==> a <= u < a + v.mem[a].size;
      assert UnitOf(v, c, u) <==> c <= u < c + v.mem[c].size;
    }
  }

  lemma MergeFree(v: View, i: nat, k: nat)
    requires Sound(v) && Adjacent(v, i) && i > 0
    ensures FreeOk(Merge(v, i), k)
  {
    var w := Merge(v, i);
    var m := if k <= i then k else k + 1;
    RemoveList(v.list, i);
    assert FreeOk(v, m) && RemovedAt(v.list, i, w.list, k);
    if 0 < k < |w.list| {
      assert v.list[m] != v.list[i + 1];
      MergeBlock(v, i, v.list[m]);
    }
  }

  lemma MergeHome(v: View, i: nat, u: nat)
    requires Sound(v) && Adjacent(v, i) && i > 0
    ensures HomeOk(Merge(v, i), u)
  {
    var w := Merge(v, i);
    RemoveList(v.list, i);
    assert RemovedAt(v.list, i, w.list, i) && HomeOk(v, u) && FreeOk(v, i + 1);
  }

  lemma MergeSound(v: View, i: nat)
    requires Sound(v) && Adjacent(v, i) && i > 0
    ensures Sound(Merge(v, i))
    ensures forall k: nat :: Apart(v, if k < i then k else k + 1) ==> Apart(Merge(v, i), k)
  {
    var w, p, c := Merge(v, i), v.list[i], v.list[i + 1];
    RemoveList(v.list, i);
    assert LinkOk(v, i + 1) && FreeOk(v, i + 1);
    forall k: nat
      ensures LinkOk(w, k)
      ensures Apart(v, if k < i then k else k + 1) ==> Apart(w, k)
    {
      assert LinkOk(v, if k < i then k else k + 1);
      BypassLink(v, w, i, v.mem[p].size + v.mem[c].size, k);
    }
    forall k: nat ensures FreeOk(w, k) { MergeFree(v, i, k); }
    forall a | a in w.live ensures BlockOk(w, a) && a != BASE { MergeBlock(v, i, a); }
    assert RemovedAt(v.list, i, w.list, 0);
    forall u: nat ensures HomeOk(w, u) { MergeHome(v, i, u); }
  }

  lemma TakeBlock(v: View, i: nat, a: nat)
    requires Sound(v) && i + 1 < |v.list| && v.list[i] in v.mem && v.list[i + 1] in v.mem && BlockOk(v, a)
    ensures BlockOk(Take(v, i), a)
  {
    SameBlock(v, Take(v, i), a);
  }

  lemma TakeSound(v: View, i: nat)
    requires Valid(v) && i + 1 < |v.list|
    ensures v.list[i] in v.mem && v.list[i + 1] in v.mem && Valid(Take(v, i))
  {
    assert LinkOk(v, i) && LinkOk(v, i + 1) && FreeOk(v, i + 1) && Apart(v, i);
    var w, c := Take(v, i), v.list[i + 1];
    RemoveList(v.list, i);
    forall k: nat ensures LinkOk(w, k) && Apart(w, k) {
      assert LinkOk(v, if k < i then k else k + 1) && Apart(v, if k < i then k else k + 1);
      BypassLink(v, w, i, v.mem[v.list[i]].size, k);
    }
    forall k: nat ensures FreeOk(w, k) {
      var m := if k <= i then k else k + 1;
      assert FreeOk(v, m) && RemovedAt(v.list, i, w.list, k);
      if 0 < k < |w.list| {
        assert v.list[m] != c;
        TakeBlock(v, i, v.list[m]);
      }
    }
    forall a | a in w.live ensures BlockOk(w, a) && a != BASE { TakeBlock(v, i, a); }
    assert RemovedAt(v.list, i, w.list, 0);
    forall u: nat ensures HomeOk(w, u) { assert HomeOk(v, u); }
  }

  /** malloc's other case: node `i` keeps its head and gives away its last `n` units. */
  function Split(v: View, i: nat, n: nat): View
    requires i < |v.list| && v.list[i] in v.mem && n < v.mem[v.list[i]].size
    requires v.list[i] + v.mem[v.list[i]].size - n in v.mem
  {
    var a := v.list[i];
    var rest := v.mem[a].size - n;
    var b := a + rest;
    View(v.mem[a := v.mem[a].(size := rest)][b := v.mem[b].(size := n)], v.list, v.live + {b},
         map u | u in v.owner :: if v.owner[u] == a && u >= b then b else v.owner[u])
  }

  lemma SplitAt(v: View, i: nat, n: nat)
    requires Sound(v) && i < |v.list| && v.list[i] in v.mem && 0 < n < v.mem[v.list[i]].size
    ensures i > 0 && v.list[i] + v.mem[v.list[i]].size - n in v.mem
    ensures UnitOf(v, v.list[i], v.list[i] + v.mem[v.list[i]].size - n)
  {
    assert FreeOk(v, i) && HomeOk(v, v.list[i] + v.mem[v.list[i]].size - n);
    assert UnitOf(v, v.list[i], v.list[i] + v.mem[v.list[i]].size - n);
  }

  lemma OwnsItsHeader(v: View, a: nat)
    ensures BlockOk(v, a) ==> UnitOf(v, a, a)
  {
  }

  lemma OwnerIsBlock(v: View, a: nat, u: nat)
    requires Sound(v)
    ensures UnitOf(v, a, u) ==> BlockOk(v, a)
  {
    assert HomeOk(v, u);
    if UnitOf(v, a, u) && a !in v.live {
      var k :| 0 <= k < |v.list| && v.list[k] == a;
      assert FreeOk(v, k);
    }
  }

  /** The unit of one block is not the header of another. */
  lemma NoHeaderInside(v: View, p: nat, b: nat, u: nat)
    requires Sound(v) && UnitOf(v, p, b) && p != b
    ensures !UnitOf(v, b, u) && !BlockOk(v, b)
  {
    OwnsItsHeader(v, b);
    OwnerIsBlock(v, b, u);
  }

  lemma SplitBlock(v: View, i: nat, n: nat, a: nat)
    requires Sound(v) && i < |v.list| && v.list[i] in v.mem && 0 < n < v.mem[v.list[i]].size
    requires v.list[i] + v.mem[v.list[i]].size - n in v.mem
    requires BlockOk(v, a) || a == v.list[i] + v.mem[v.list[i]].size - n
    ensures BlockOk(Split(v, i, n), a)
  {
    SplitAt(v, i, n);
    var w, p := Split(v, i, n), v.list[i];
    var b := p + v.mem[p].size - n;
    assert FreeOk(v, i);
    forall u: nat ensures UnitOf(w, a, u) <==> a <= u < a + w.mem[a].size {
      assert UnitOf(v, p, u) <==> p <= u < p + v.mem[p].size;
      NoHeaderInside(v, p, b, u);
      if BlockOk(v, a) { assert UnitOf(v, a, u) <==> a <= u < a + v.mem[a].size; }
    }
  }

  lemma SplitSound(v: View, i: nat, n: nat)
    requires Valid(v) && i < |v.list| && v.list[i] in v.mem && 0 < n < v.mem[v.list[i]].size
    ensures v.list[i] + v.mem[v.list[i]].size - n in v.mem && Valid(Split(v, i, n))
  {
    SplitAt(v, i, n);
    var w, p := Split(v, i, n), v.list[i];
    var b := p + v.mem[p].size - n;
    assert FreeOk(v, i);
    forall k: nat ensures k < |v.list| ==> v.list[k] != b {
      assert FreeOk(v, k);
      NoHeaderInside(v, p, b, b);
    }
    forall k: nat ensures LinkOk(w, k) && Apart(w, k) {
      assert LinkOk(v, k) && Apart(v, k);
    }
    forall k: nat ensures FreeOk(w, k) {
      assert FreeOk(v, k);
      if 0 < k < |w.list| { SplitBlock(v, i, n, v.list[k]); }
    }
    forall a | a in w.live ensures BlockOk(w, a) && a != BASE { SplitBlock(v, i, n, a); }
    forall u: nat ensures HomeOk(w, u) { assert HomeOk(v, u); }
  }

  // ----- Memory from sbrk -----

  predicate Within(b: nat, n: nat, u: nat) {
    b <= u < b + n
  }

  /** sbrk's region, zeroed, as one block in use. */
  function Grow(v: View, b: nat, n: nat): View
    requires n > 0
  {
    View(v.mem + (map u: nat | b <= u < b + n && Within(b, n, u) :: Header(0, if u == b then n else 0)),
         v.list, v.live + {b},
         v.owner + (map u: nat | b <= u < b + n && Within(b, n, u) :: b))
  }

  predicate Above(v: View, b: nat) {
    b > BASE && (forall u :: u in v.owner ==> u < b) && (forall u :: u in v.mem ==> u < b)
  }

  lemma GrowSound(v: View, b: nat, n: nat)
    requires Valid(v) && n > 0 && Above(v, b)
    ensures Valid(Grow(v, b, n))
  {
    var w := Grow(v, b, n);
    forall a: nat | BlockOk(v, a) ensures BlockOk(w, a) {
      assert UnitOf(v, a, a);
      forall u: nat ensures UnitOf(w, a, u) <==> a <= u < a + w.mem[a].size {
        assert UnitOf(v, a, u) <==> a <= u < a + v.mem[a].size;
      }
    }
    forall u: nat ensures UnitOf(w, b, u) <==> b <= u < b + w.mem[b].size {
      OwnsItsHeader(v, b);
      OwnerIsBlock(v, b, u);
    }
    assert BlockOk(w, b);
    forall k: nat ensures LinkOk(w, k) && Apart(w, k) { assert LinkOk(v, k) && Apart(v, k); }
    forall k: nat ensures FreeOk(w, k) { assert FreeOk(v, k) && LinkOk(v, k); }
    forall u: nat ensures HomeOk(w, u) { assert HomeOk(v, u); }
  }

  // ----- The whole of free -----

  function MergeIf(v: View, i: nat): View {
    if Adjacent(v, i) then Merge(v, i) else v
  }

  function SizeAt(v: View, k: nat): nat {
    if k < |v.list| && v.list[k] in v.mem then v.mem[v.list[k]].size else 0
  }

  ghost predicate ApartFrom(v: View, i: nat) {
    forall k: nat :: k >= i ==> Apart(v, k)
  }

  lemma MergeIfSound(v: View, i: nat)
    requires Sound(v) && ApartFrom(v, i + 1)
    ensures var w := MergeIf(v, i);
      && Sound(w) && ApartFrom(w, i) && (forall k: nat :: k < i && Apart(v, k) ==> Apart(w, k))
      && w.live == v.live && w.owner.Keys == v.owner.Keys
      && |w.list| <= |v.list| && (forall k :: 0 <= k < |w.list| && k <= i ==> w.list[k] == v.list[k])
      && (i < |v.list| ==> i < |w.list|) && forall k: nat :: k <= i ==> SizeAt(w, k) >= SizeAt(v, k)
  {
    assert LinkOk(v, i);
    if Adjacent(v, i) {
      var w := Merge(v, i);
      assert i > 0 by { assert v.list[0] < v.list[i + 1]; }
      MergeSound(v, i);
      RemoveList(v.list, i);
      forall k: nat | k >= i ensures Apart(w, k) { assert Apart(v, k + 1); }
      forall k: nat | k < i && Apart(v, k) ensures Apart(w, k) {}
      forall k: nat | k <= i ensures SizeAt(w, k) >= SizeAt(v, k) && w.list[k] == v.list[k] {
        assert RemovedAt(v.list, i, w.list, k);
        assert k < i ==> v.list[k] < v.list[i];
      }
    } else {
      assert LinkOk(v, i + 1);
      forall k: nat | k >= i ensures Apart(v, k) {}
    }
  }

  function Release(v: View, j: nat, b: nat): View
    requires j < |v.list| && v.list[j] in v.mem && b in v.mem
  {
    MergeIf(MergeIf(Insert(v, j, b), j + 1), j)
  }

  /** A block of size `n` or more is free. */
  ghost predicate HasRoom(v: View, n: nat) {
    exists k :: 0 <= k < |v.list| && SizeAt(v, k) >= n
  }

  lemma MergeIfRoom(v: View, i: nat, n: nat)
    requires i + 1 < |v.list| && SizeAt(v, i + 1) >= n
    ensures HasRoom(MergeIf(v, i), n)
  {
    var w := MergeIf(v, i);
    if Adjacent(v, i) {
      assert w.list[i] == v.list[i];
      assert SizeAt(w, i) >= n;
    } else {
      assert SizeAt(w, i + 1) >= n;
    }
  }

  lemma InsertApart(v: View, j: nat, b: nat)
    requires Valid(v) && b in v.live && Before(v, j, b)
    ensures v.list[j] in v.mem && b in v.mem
    ensures var w := Insert(v, j, b);
      && Sound(w) && ApartFrom(w, j + 2) && (forall k: nat :: k < j ==> Apart(w, k))
      && |w.list| == |v.list| + 1 && w.list[j] == v.list[j] && SizeAt(w, j + 1) == v.mem[b].size
  {
    Gaps(v, j, b);
    InsertSound(v, j, b);
    InsertList(v, j, b);
    var w := Insert(v, j, b);
    assert InsertedAt(v.list, j, b, w.list, j) && InsertedAt(v.list, j, b, w.list, j + 1);
    forall k: nat | k != j && k != j + 1 ensures Apart(w, k) { assert Apart(v, if k < j then k else k - 1); }
  }

  /** free keeps the heap: its block is free, alone or as part of a bigger one. */
  lemma ReleaseSound(v: View, j: nat, b: nat)
    requires Valid(v) && b in v.live && Before(v, j, b)
    ensures v.list[j] in v.mem && b in v.mem
    ensures var w := Release(v, j, b);
      && Valid(w) && w.live == v.live - {b} && w.owner.Keys == v.owner.Keys
      && v.list[j] in w.list && HasRoom(w, v.mem[b].size)
  {
    InsertApart(v, j, b);
    var v1 := Insert(v, j, b);
    MergeIfSound(v1, j + 1);
    var v2 := MergeIf(v1, j + 1);
    MergeIfSound(v2, j);
    MergeIfRoom(v2, j, v.mem[b].size);
    var w := MergeIf(v2, j);
    assert w.list[j] == v.list[j];
    forall k: nat ensures Apart(w, k) { if k < j { assert Apart(v1, k) && Apart(v2, k); } }
  }

  /** What the second half of umalloc.c's free writes, put into one expression. */
  function Linked(m: map<nat, Header>, p: nat, b: nat): map<nat, Header>
    requires p in m && b in m && m[p].ptr in m
  {
    var next := m[p].ptr;
    var h := if b + m[b].size == next then Header(m[next].ptr, m[b].size + m[next].size) else Header(next, m[b].size);
    if p + m[p].size == b then m[b := h][p := Header(h.ptr, m[p].size + h.size)]
    else m[b := h][p := Header(b, m[p].size)]
  }

  lemma InsertMerges(v: View, j: nat, b: nat)
    requires Valid(v) && b in v.live && Before(v, j, b)
    ensures v.list[j] in v.mem && b in v.mem && v.mem[v.list[j]].ptr in v.mem
    ensures var v1 := Insert(v, j, b);
      && (Adjacent(v1, j + 1) <==> b + v.mem[b].size == v.mem[v.list[j]].ptr)
      && |v1.list| == |v.list| + 1 && v1.list[j] == v.list[j] && v1.list[j + 1] == b
      && (Adjacent(v1, j + 1) ==>
          v1.list[j + 2] == v.mem[v.list[j]].ptr && v1.mem[v1.list[j + 2]] == v.mem[v1.list[j + 2]])
  {
    Gaps(v, j, b);
    InsertSound(v, j, b);
    InsertList(v, j, b);
    var v1 := Insert(v, j, b);
    assert InsertedAt(v.list, j, b, v1.list, j) && InsertedAt(v.list, j, b, v1.list, j + 1);
    assert InsertedAt(v.list, j, b, v1.list, j + 2);
    assert LinkOk(v, j) && LinkOk(v, j + 1) && LinkOk(v1, j + 2);
    if j + 1 < |v.list| { InsertMem(v, j, b, j + 1); }
  }

  lemma ReleaseMem(v: View, j: nat, b: nat)
    requires Valid(v) && b in v.live && Before(v, j, b)
    ensures v.list[j] in v.mem && b in v.mem && v.mem[v.list[j]].ptr in v.mem
    ensures Release(v, j, b).mem == Linked(v.mem, v.list[j], b)
  {
    InsertMerges(v, j, b);
    InsertApart(v, j, b);
    var v1, p, next := Insert(v, j, b), v.list[j], v.mem[v.list[j]].ptr;
    var v2 := MergeIf(v1, j + 1);
    MergeIfSound(v1, j + 1);
    assert v2.list[j] == p && v2.list[j + 1] == b;
    assert v1.mem[b] == Header(next, v.mem[b].size) && v1.mem[p] == Header(b, v.mem[p].size);
    var h := if b + v.mem[b].size == next then Header(v.mem[next].ptr, v.mem[b].size + v.mem[next].size)
             else Header(next, v.mem[b].size);
    assert v2.mem == v.mem[b := h][p := Header(b, v.mem[p].size)];
    assert Adjacent(v2, j) <==> p + v.mem[p].size == b;
  }

  // ----- The contents of blocks in use -----

  /** Unit `u` of block `a` still belongs to it and holds what it held. */
  predicate SameUnit(v: View, w: View, a: nat, u: nat) {
    UnitOf(v, a, u) && u in v.mem ==> UnitOf(w, a, u) && u in w.mem && w.mem[u] == v.mem[u]
  }

  ghost predicate Untouched(v: View, w: View, a: nat) {
    forall u: nat :: SameUnit(v, w, a, u)
  }

  lemma UntouchedTrans(v: View, w: View, x: View, a: nat)
    requires Untouched(v, w, a) && Untouched(w, x, a)
    ensures Untouched(v, x, a)
  {
    forall u: nat ensures SameUnit(v, x, a, u) { assert SameUnit(v, w, a, u) && SameUnit(w, x, a, u); }
  }

  /** Node `i` is not a unit of a block in use. */
  lemma NodeUnits(v: View, i: nat, a: nat, u: nat)
    requires Sound(v) && i < |v.list| && UnitOf(v, a, u) && a in v.live
    ensures u != v.list[i]
  {
    assert FreeOk(v, i) && HomeOk(v, u);
    if i > 0 { OwnsItsHeader(v, v.list[i]); }
  }

  lemma InsertUntouched(v: View, j: nat, b: nat, a: nat)
    requires Sound(v) && b in v.live && a in v.live && a != b && j < |v.list| && v.list[j] in v.mem && b in v.mem
    ensures Untouched(v, Insert(v, j, b), a)
  {
    OwnsItsHeader(v, b);
    forall u: nat | UnitOf(v, a, u) ensures SameUnit(v, Insert(v, j, b), a, u) { NodeUnits(v, j, a, u); }
  }

  lemma MergeIfUntouched(v: View, i: nat, a: nat)
    requires Sound(v) && a in v.live
    ensures Untouched(v, MergeIf(v, i), a)
  {
    if Adjacent(v, i) {
      assert FreeOk(v, i + 1);
      forall u: nat | UnitOf(v, a, u) ensures SameUnit(v, MergeIf(v, i), a, u) { NodeUnits(v, i, a, u); }
    }
  }

  lemma ReleaseUntouched(v: View, j: nat, b: nat, a: nat)
    requires Valid(v) && b in v.live && Before(v, j, b) && a in v.live && a != b
    ensures v.list[j] in v.mem && b in v.mem && Untouched(v, Release(v, j, b), a)
  {
    InsertApart(v, j, b);
    var v1 := Insert(v, j, b);
    MergeIfSound(v1, j + 1);
    var v2 := MergeIf(v1, j + 1);
    InsertUntouched(v, j, b, a);
    MergeIfUntouched(v1, j + 1, a);
    MergeIfUntouched(v2, j, a);
    UntouchedTrans(v, v1, v2, a);
    UntouchedTrans(v, v2, MergeIf(v2, j), a);
  }

  /** All that free does, from the node `p` after which its scan has stopped. */
  lemma Freed(v: View, p: nat, b: nat) returns (w: View)
    requires Valid(v) && b in v.live && exists j: nat :: Before(v, j, b) && p == v.list[j]
    ensures p in v.mem && b in v.mem && v.mem[p].ptr in v.mem
    ensures w.mem == Linked(v.mem, p, b) && w.live == v.live - {b} && w.owner.Keys == v.owner.Keys
    ensures Valid(w) && p in w.list && HasRoom(w, v.mem[b].size)
    ensures forall a :: a in w.live ==> Untouched(v, w, a)
  {
    var j: nat :| Before(v, j, b) && p == v.list[j];
    ReleaseSound(v, j, b);
    ReleaseMem(v, j, b);
    w := Release(v, j, b);
    forall a | a in w.live ensures Untouched(v, w, a) { ReleaseUntouched(v, j, b, a); }
  }

  lemma TakeUntouched(v: View, i: nat, a: nat)
    requires Sound(v) && i + 1 < |v.list| && v.list[i] in v.mem && v.list[i + 1] in v.mem && a in v.live
    ensures Untouched(v, Take(v, i), a)
  {
    forall u: nat | UnitOf(v, a, u) ensures SameUnit(v, Take(v, i), a, u) { NodeUnits(v, i, a, u); }
  }

  lemma SplitUntouched(v: View, i: nat, n: nat, a: nat)
    requires Sound(v) && i < |v.list| && v.list[i] in v.mem && 0 < n < v.mem[v.list[i]].size && a in v.live
    requires v.list[i] + v.mem[v.list[i]].size - n in v.mem
    ensures Untouched(v, Split(v, i, n), a)
  {
    SplitAt(v, i, n);
    assert FreeOk(v, i);
    forall u: nat | UnitOf(v, a, u) ensures SameUnit(v, Split(v, i, n), a, u) { NodeUnits(v, i, a, u); }
  }

  lemma GrowIsNew(v: View, b: nat)
    requires Sound(v) && Above(v, b)
    ensures b !in v.live
  {
    OwnsItsHeader(v, b);
  }

  lemma GrowUntouched(v: View, b: nat, n: nat, a: nat)
    requires n > 0 && Above(v, b)
    ensures Untouched(v, Grow(v, b, n), a)
  {
  }

  /** From `v` to `w` no block in use has changed and no memory was lost. */
  ghost predicate Extends(v: View, w: View) {
    v.owner.Keys <= w.owner.Keys && forall a :: a in v.live ==> Untouched(v, w, a)
  }

  lemma ExtendsTrans(v: View, w: View, x: View)
    requires Extends(v, w) && Extends(w, x) && v.live <= w.live
    ensures Extends(v, x)
  {
    forall a | a in v.live ensures Untouched(v, x, a) { UntouchedTrans(v, w, x, a); }
  }

  /** `b` is a new block of `n` units. */
  predicate Gave(v: View, w: View, b: nat, n: nat) {
    b !in v.live && w.live == v.live + {b} && b in w.mem && w.mem[b].size == n
  }

  // ----- Walking the cycle -----

  /** Links from node `i` to node `k` of a cycle of `n`. */
  function Dist(n: nat, i: nat, k: nat): nat
    requires i < n && k < n
  {
    if i <= k then k - i else n - i + k
  }

  /** free's scan stops exactly at the node after which `b` belongs. */
  lemma ScanStops(v: View, i: nat, j: nat, b: nat)
    requires Valid(v) && i < |v.list| && Before(v, j, b) && b > BASE
    ensures v.list[i] in v.mem
    ensures var p, q := v.list[i], v.mem[v.list[i]].ptr;
      ((b > p && b < q) || (p >= q && (b > p || b < q))) <==> i == j
  {
    assert LinkOk(v, i);
    if i < j { assert i + 1 < j ==> v.list[i + 1] < v.list[j]; }
    if j < i { assert j + 1 < i ==> v.list[j + 1] < v.list[i]; }
  }

  lemma HasPlace(v: View, b: nat) returns (j: nat)
    requires Valid(v) && b > BASE && b !in v.list
    ensures Before(v, j, b)
  {
    j := 0;
    while j + 1 < |v.list| && v.list[j + 1] < b
      invariant j < |v.list| && v.list[j] < b
    {
      j := j + 1;
    }
  }

  /** Node `k` comes no later than node `f` on the way from node `c`. */
  predicate Ahead(n: nat, c: nat, f: nat, k: nat) {
    c < n && f < n && k < n && Dist(n, c, k) <= Dist(n, c, f)
  }

  lemma StepAhead(v: View, c: nat, f: nat, k: nat)
    requires Ahead(|v.list|, c, f, k) && c != f
    ensures k != c ==> Ahead(|v.list|, Next(v.list, c), f, k)
    ensures Dist(|v.list|, Next(v.list, c), f) < Dist(|v.list|, c, f)
  {
  }

  lemma StartAhead(v: View, f: nat, k: nat)
    requires f < |v.list| && k < |v.list|
    ensures Ahead(|v.list|, Next(v.list, f), f, k)
  {
  }
}