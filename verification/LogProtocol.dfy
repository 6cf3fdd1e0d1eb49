/** begin_op, log_write, end_op, commit and recovery as interleaved atomic steps of any
    number of processes, with a power failure possible between any two steps. */
module LogProtocol {
  import opened Common
  import opened LogDisk

  /** Where the one committing or recovering thread is.  `k` counts finished block copies. */
  datatype Phase =
    | Running              // no commit in progress
    | Logging(k: nat)      // in write_log, or about to write the header
    | Installing(k: nat)   // in install_trans(0), or about to clear the header
    | Finishing            // commit() has returned, log.committing is still set
    | Booting              // power is back, the header has not been read
    | Recovering(k: nat)   // in install_trans(1), or about to clear the header

  /** A process outside the file system, or inside operation `op` that has logged `logged`. */
  datatype Proc = Outside | Inside(op: nat, logged: set<int>)

  datatype Update = Update(op: nat, bn: int, data: Block)

  /** The operations that one commit makes durable together, and all that they wrote. */
  datatype Group = Group(ops: set<nat>, updates: seq<Update>)

  const NoGroup := Group({}, [])

  /** `lh`, `outstanding`, `committing` are the fields of the log; `cache` holds what the
      buffer cache holds.  The last four fields are history and guard nothing. */
  datatype State = State(
    disk: DiskImage, cache: map<int, Block>, phase: Phase,
    lh: seq<int>, outstanding: int, committing: bool, procs: seq<Proc>,
    nextOp: nat, ended: set<nat>, current: Group, committed: seq<Group>)

  /** `bread` of a block, from the cache if it is there. */
  function Read(s: State, bn: int): Block
    requires 0 <= bn < |s.disk|
  {
    if bn in s.cache then s.cache[bn] else s.disk[bn]
  }

  /** Change a cached block and write it out at once. */
  function Bwrite(s: State, bn: int, data: Block): State
    requires 0 <= bn < |s.disk|
  {
    s.(cache := s.cache[bn := data], disk := s.disk[bn := data])
  }

  /** The buffer of block `x` holds the extra reference that `log_write` took. */
  predicate Pinned(s: State, x: int) {
    match s.phase
    case Running => x in s.lh
    case Logging(_) => x in s.lh
    case Installing(k) => k <= |s.lh| && x in s.lh[k..]
    case _ => false
  }

  function AbsorbInto(bl: seq<int>, bn: int): seq<int> {
    if bn in bl then bl else bl + [bn]
  }

  /** The two panics of log_write. */
  predicate LogWritePanics(l: Layout, s: State) {
    |s.lh| >= LOGSIZE || |s.lh| >= l.size - 1 || s.outstanding < 1
  }

  datatype Action =
    | BeginOp(p: nat)
    | Write(p: nat, bn: int, data: Block)   // bread, change, log_write, brelse
    | EndOp(p: nat)
    | Fetch(bn: int)                        // some bread misses the cache
    | Evict(bn: int)                        // bget recycles an unreferenced buffer
    | Advance                               // the committing or recovering thread moves on
    | Crash

  ghost predicate Enabled(l: Layout, s: State, a: Action) {
    && l.Fits(s.disk)
    && match a
       case BeginOp(p) =>
         && s.phase !in {Booting} && !s.phase.Recovering? && p < |s.procs| && s.procs[p].Outside?
         && !s.committing && |s.lh| + (s.outstanding + 1) * MAXOPBLOCKS <= LOGSIZE
       case Write(p, bn, data) =>
         && p < |s.procs| && s.procs[p].Inside? && l.Home(s.disk, bn)
         && |s.procs[p].logged + {bn}| <= MAXOPBLOCKS && !LogWritePanics(l, s)
       case EndOp(p) => p < |s.procs| && s.procs[p].Inside? && !s.committing
       case Fetch(bn) => 0 <= bn < |s.disk| && bn !in s.cache
       case Evict(bn) => bn in s.cache && !Pinned(s, bn)
       case Advance =>
         (match s.phase
          case Running => false
          case Logging(k) => k <= |s.lh| <= l.Capacity() && forall i :: 0 <= i < |s.lh| ==> l.Home(s.disk, s.lh[i])
          case Installing(k) => k <= |s.lh| <= l.Capacity() && forall i :: 0 <= i < |s.lh| ==> l.Home(s.disk, s.lh[i])
          case Finishing => true
          case Booting => 0 <= Read(s, l.start)[0] <= LOGSIZE
          case Recovering(k) => k <= |s.lh| <= l.Capacity() && forall i :: 0 <= i < |s.lh| ==> l.Home(s.disk, s.lh[i]))
       case Crash => true
  }

  ghost function Do(l: Layout, s: State, a: Action): State
    requires Enabled(l, s, a)
  {
    match a
    case BeginOp(p) =>
      s.(procs := s.procs[p := Inside(s.nextOp, {})], outstanding := s.outstanding + 1, nextOp := s.nextOp + 1,
         current := s.current.(ops := s.current.ops + {s.nextOp}))
    case Write(p, bn, data) =>
      var op := s.procs[p].op;
      s.(cache := s.cache[bn := data], lh := AbsorbInto(s.lh, bn),
         procs := s.procs[p := Inside(op, s.procs[p].logged + {bn})],
         current := s.current.(updates := s.current.updates + [Update(op, bn, data)]))
    case EndOp(p) =>
      var t := s.(procs := s.procs[p := Outside], outstanding := s.outstanding - 1,
                  ended := s.ended + {s.procs[p].op});
      if t.outstanding == 0 then
        t.(committing := true, phase := if |s.lh| > 0 then Logging(0) else Finishing)
      else t
    case Fetch(bn) => s.(cache := s.cache[bn := s.disk[bn]])
    case Evict(bn) => s.(cache := s.cache - {bn})
    case Advance => Advanced(l, s)
    case Crash =>
      s.(cache := map[], phase := Booting, lh := [], outstanding := 0, committing := false,
         procs := seq(|s.procs|, i => Outside), current := NoGroup)
  }

  /** The next block write (or the next step without one) of commit or recovery. */
  ghost function Advanced(l: Layout, s: State): State
    requires Enabled(l, s, Advance)
  {
    match s.phase
    case Logging(k) =>
      if k < |s.lh| then Bwrite(s, l.start + 1 + k, Read(s, s.lh[k])).(phase := Logging(k + 1))
      else
        Bwrite(s, l.start, EncodeHead(Read(s, l.start), s.lh))
          .(phase := Installing(0), committed := s.committed + [s.current], current := NoGroup)
    case Installing(k) =>
      if k < |s.lh| then Bwrite(s, s.lh[k], Read(s, l.start + 1 + k)).(phase := Installing(k + 1))
      else Bwrite(s, l.start, EncodeHead(Read(s, l.start), [])).(phase := Finishing, lh := [])
    case Finishing => s.(phase := Running, committing := false)
    case Booting => s.(phase := Recovering(0), lh := DecodeHead(Read(s, l.start)))
    case Recovering(k) =>
      if k < |s.lh| then Bwrite(s, s.lh[k], Read(s, l.start + 1 + k)).(phase := Recovering(k + 1))
      else Bwrite(s, l.start, EncodeHead(Read(s, l.start), [])).(phase := Running, lh := [])
  }

  /** Power is switched on over a file system whose log holds nothing. */
  ghost predicate Init(l: Layout, s: State) {
    && l.Fits(s.disk) && s.disk[l.start][0] == 0
    && s.cache == map[] && s.phase == Booting && s.lh == [] && s.outstanding == 0 && !s.committing
    && (forall p :: 0 <= p < |s.procs| ==> s.procs[p].Outside?)
    && s.nextOp == 0 && s.ended == {} && s.current == NoGroup && s.committed == []
  }

  ghost predicate Run(l: Layout, states: seq<State>, actions: seq<Action>) {
    && |states| == |actions| + 1
    && Init(l, states[0])
    && forall i :: 0 <= i < |actions| ==>
         Enabled(l, states[i], actions[i]) && states[i + 1] == Do(l, states[i], actions[i])
  }

  // ----- Reference meaning: a plain block array updated group by group -----

  ghost function Apply(d: DiskImage, us: seq<Update>): (e: DiskImage)
    ensures |e| == |d|
  {
    if us == [] then d
    else
      var e, u := Apply(d, us[..|us| - 1]), us[|us| - 1];
      if 0 <= u.bn < |e| then e[u.bn := u.data] else e
  }

  ghost function ApplyGroups(d: DiskImage, gs: seq<Group>): (e: DiskImage)
    ensures |e| == |d|
  {
    if gs == [] then d else Apply(ApplyGroups(d, gs[..|gs| - 1]), gs[|gs| - 1].updates)
  }

  /** The durable contents: the initial disk after all committed groups. */
  ghost function Durable(init: DiskImage, s: State): DiskImage {
    ApplyGroups(init, s.committed)
  }

  /** What readers should see: the durable contents after the updates of the open group. */
  ghost function Logical(init: DiskImage, s: State): DiskImage {
    Apply(Durable(init, s), s.current.updates)
  }

  ghost function Active(procs: seq<Proc>): set<nat> {
    set i | 0 <= i < |procs| && procs[i].Inside? :: procs[i].op
  }

  ghost function Count(procs: seq<Proc>): nat {
    if procs == [] then 0 else Count(procs[1..]) + (if procs[0].Inside? then 1 else 0)
  }

  /** How many more blocks the operations in progress may log. */
  ghost function Reserve(procs: seq<Proc>): int {
    if procs == [] then 0
    else Reserve(procs[1..]) + (if procs[0].Inside? then MAXOPBLOCKS - |procs[0].logged| else 0)
  }

  lemma {:induction false} SumsUpdate(procs: seq<Proc>, p: nat, q: Proc)
    requires p < |procs|
    ensures Count(procs[p := q]) ==
            Count(procs) - (if procs[p].Inside? then 1 else 0) + (if q.Inside? then 1 else 0)
    ensures Reserve(procs[p := q]) ==
            Reserve(procs) - (if procs[p].Inside? then MAXOPBLOCKS - |procs[p].logged| else 0)
            + (if q.Inside? then MAXOPBLOCKS - |q.logged| else 0)
  {
    var after := procs[p := q];
    if p == 0 {
      assert after[1..] == procs[1..];
    } else {
      assert after[1..] == procs[1..][p - 1 := q];
      SumsUpdate(procs[1..], p - 1, q);
    }
  }

  lemma {:induction false} ReserveBounds(procs: seq<Proc>)
    requires forall p :: p in procs && p.Inside? ==> |p.logged| <= MAXOPBLOCKS
    ensures 0 <= Reserve(procs) <= MAXOPBLOCKS * Count(procs)
    ensures forall p :: p in procs && p.Inside? ==> Reserve(procs) >= MAXOPBLOCKS - |p.logged|
    ensures forall p :: p in procs && p.Inside? ==> Count(procs) >= 1
  {
    if procs != [] {
      ReserveBounds(procs[1..]);
    }
  }

  lemma {:induction false} NobodyInside(procs: seq<Proc>)
    requires forall p :: 0 <= p < |procs| ==> procs[p].Outside?
    ensures Count(procs) == 0 && Reserve(procs) == 0
  {
    if procs != [] {
      NobodyInside(procs[1..]);
    }
  }

  // ----- The invariant -----

  ghost predicate Committing(s: State) {
    s.phase.Logging? || s.phase.Installing? || s.phase.Finishing?
  }

  ghost predicate Starting(s: State) {
    s.phase.Booting? || s.phase.Recovering?
  }

  /** Who is inside, what may still be logged, and which operations belong to which group. */
  ghost predicate ProcsOk(l: Layout, s: State) {
    && s.outstanding == Count(s.procs)
    && s.committing == Committing(s)
    && (s.committing || Starting(s) ==> forall p :: 0 <= p < |s.procs| ==> s.procs[p].Outside?)
    && (forall p :: p in s.procs && p.Inside? ==>
          p.op < s.nextOp && |p.logged| <= MAXOPBLOCKS && (forall bn :: bn in p.logged ==> bn in s.lh))
    && (!Starting(s) ==> |s.lh| + Reserve(s.procs) <= LOGSIZE)
  }

  ghost predicate GroupsOk(s: State) {
    && (forall o :: o in s.ended || o in s.current.ops ==> o < s.nextOp)
    && (forall o :: o in s.current.ops ==> o in s.ended || o in Active(s.procs))
    && Active(s.procs) <= s.current.ops
    && (forall g :: g in s.committed ==> g.ops <= s.ended)
    && (forall g :: g in s.committed + [s.current] ==> forall u :: u in g.updates ==> u.op in g.ops)
    && GroupsApart(s)
  }

  /** No operation is in two groups: a commit takes all of an operation or nothing. */
  ghost predicate GroupsApart(s: State) {
    && (forall i, j :: 0 <= i < j < |s.committed| ==> s.committed[i].ops !! s.committed[j].ops)
    && (forall g :: g in s.committed ==> g.ops !! s.current.ops)
  }

  ghost predicate ListOk(l: Layout, s: State) {
    GoodList(l, s.disk, s.lh) && Distinct(s.lh)
  }

  /** Cached blocks are clean unless pinned, and pinned blocks are cached. */
  ghost predicate CachedOk(s: State, x: int) {
    && (x in s.cache ==> 0 <= x < |s.disk| && (Pinned(s, x) || s.cache[x] == s.disk[x]))
    && (Pinned(s, x) ==> x in s.cache)
  }

  ghost predicate CacheOk(s: State) {
    forall x :: CachedOk(s, x)
  }

  /** Home block `x` is durable as it is on the disk. */
  ghost predicate Agree(l: Layout, durable: DiskImage, d: DiskImage, x: int)
    requires |durable| == |d|
  {
    l.Home(d, x) ==> d[x] == durable[x]
  }

  /** The header names `bl`; the log holds the durable contents of those blocks, the first
      `k` of them are installed, and every other home block is durable as it is. */
  ghost predicate Pending(l: Layout, durable: DiskImage, d: DiskImage, bl: seq<int>, k: nat) {
    && GoodHead(l, d) && Logged(l, d) == bl && Distinct(bl) && k <= |bl|
    && |durable| == |d|
    && (forall x :: x !in bl[k..] ==> Agree(l, durable, d, x))
    && forall i :: 0 <= i < |bl| ==> d[l.start + 1 + i] == durable[bl[i]]
  }

  /** Readers see the durable contents after the updates of the open group. */
  ghost predicate ReadOk(l: Layout, init: DiskImage, s: State, x: int)
    requires |init| == |s.disk|
  {
    l.Home(s.disk, x) ==> Read(s, x) == Logical(init, s)[x]
  }

  ghost predicate ReadsOk(l: Layout, init: DiskImage, s: State) {
    && |init| == |s.disk|
    && (!Starting(s) ==> forall x :: ReadOk(l, init, s, x))
    && (forall u :: u in s.current.updates ==> u.bn in s.lh)
  }

  /** What the disk and its log hold in each phase. */
  ghost predicate DurableOk(l: Layout, init: DiskImage, s: State) {
    var durable := Durable(init, s);
    match s.phase
    case Running => Pending(l, durable, s.disk, [], 0)
    case Logging(k) => Pending(l, durable, s.disk, [], 0) && Copied(l, init, s, k)
    case Installing(k) => Pending(l, durable, s.disk, s.lh, k) && s.current == NoGroup
    case Finishing => Pending(l, durable, s.disk, [], 0) && s.lh == [] && s.current.updates == []
    case Booting => GoodHead(l, s.disk) && Pending(l, durable, s.disk, Logged(l, s.disk), 0) && s.current == NoGroup
    case Recovering(k) => Pending(l, durable, s.disk, s.lh, k) && s.current == NoGroup
  }

  /** The first `k` log blocks hold what the transaction will make of their homes. */
  ghost predicate Copied(l: Layout, init: DiskImage, s: State, k: nat) {
    && k <= |s.lh| && |init| == |s.disk| && GoodList(l, s.disk, s.lh)
    && forall i :: 0 <= i < k ==> s.disk[l.start + 1 + i] == Logical(init, s)[s.lh[i]]
  }

  ghost predicate Inv(l: Layout, init: DiskImage, s: State) {
    ListOk(l, s) && CacheOk(s) && ProcsOk(l, s) && GroupsOk(s) && ReadsOk(l, init, s) && DurableOk(l, init, s)
  }

  /** What recovery would make of a disk in the middle of installing or recovering. */
  lemma PendingRecovers(l: Layout, durable: DiskImage, d: DiskImage, bl: seq<int>, k: nat)
    requires Pending(l, durable, d, bl, k)
    ensures SameHome(l, durable, Recovered(l, d))
  {
    var e := Install(l, d, bl, |bl|);
    forall x | l.Home(durable, x) ensures Recovered(l, d)[x] == durable[x] {
      assert Recovered(l, d)[x] == e[x];
      InstallAt(l, d, bl, |bl|, x);
      if x !in bl {
        assert Agree(l, durable, d, x);
      }
    }
  }

  lemma InitOk(l: Layout, s: State)
    requires Init(l, s)
    ensures Inv(l, s.disk, s)
  {
    NobodyInside(s.procs);
  }

  lemma ActiveUpdate(procs: seq<Proc>, p: nat, q: Proc)
    requires p < |procs|
    ensures q.Inside? && procs[p].Outside? ==> Active(procs[p := q]) == Active(procs) + {q.op}
    ensures q.Inside? && procs[p].Inside? && q.op == procs[p].op ==> Active(procs[p := q]) == Active(procs)
    ensures q.Outside? && procs[p].Inside? ==> Active(procs[p := q]) + {procs[p].op} == Active(procs)
  {
    var after := procs[p := q];
    forall i | 0 <= i < |procs| && procs[i].Inside? && i != p ensures procs[i].op in Active(after) {
      assert after[i] == procs[i];
    }
    forall i | 0 <= i < |procs| && after[i].Inside? && i != p ensures after[i].op in Active(procs) {
      assert after[i] == procs[i];
    }
    if q.Inside? { assert after[p].op in Active(after); }
  }

  lemma ApplyOne(d: DiskImage, us: seq<Update>, u: Update)
    requires 0 <= u.bn < |d|
    ensures Apply(d, us + [u]) == Apply(d, us)[u.bn := u.data]
  {
    assert (us + [u])[..|us|] == us;
  }

  lemma ApplyGroup(d: DiskImage, gs: seq<Group>, g: Group)
    ensures ApplyGroups(d, gs + [g]) == Apply(ApplyGroups(d, gs), g.updates)
  {
    assert (gs + [g])[..|gs|] == gs;
  }

  /** Steps that leave the reference contents and the disk alone. */
  lemma SameContents(l: Layout, init: DiskImage, s: State, t: State)
    requires ReadsOk(l, init, s) && Starting(t) == Starting(s)
    requires t.disk == s.disk && t.committed == s.committed && t.current.updates == s.current.updates && t.lh == s.lh
    requires forall x :: 0 <= x < |s.disk| ==> Read(t, x) == Read(s, x)
    ensures ReadsOk(l, init, t)
  {
    if !Starting(t) {
      forall x ensures ReadOk(l, init, t, x) {
        assert ReadOk(l, init, s, x);
      }
    }
  }

  lemma SameCache(s: State, t: State)
    requires CacheOk(s) && t.disk == s.disk && t.cache == s.cache
    requires forall x :: Pinned(t, x) == Pinned(s, x)
    ensures CacheOk(t)
  {
    forall x ensures CachedOk(t, x) {
      assert CachedOk(s, x);
    }
  }

  /** With anybody inside, no commit is in progress. */
  lemma InsideMeansRunning(l: Layout, s: State, p: nat)
    requires ProcsOk(l, s) && p < |s.procs| && s.procs[p].Inside?
    ensures s.phase == Running && !s.committing
  {
  }

  // ----- begin_op -----

  lemma BeginOpProcsOk(l: Layout, s: State, p: nat)
    requires ProcsOk(l, s) && GroupsOk(s) && Enabled(l, s, BeginOp(p))
    ensures ProcsOk(l, Do(l, s, BeginOp(p))) && GroupsOk(Do(l, s, BeginOp(p)))
  {
    var t := Do(l, s, BeginOp(p));
    SumsUpdate(s.procs, p, t.procs[p]);
    ReserveBounds(s.procs);
    ActiveUpdate(s.procs, p, t.procs[p]);
  }

  lemma BeginOpOk(l: Layout, init: DiskImage, s: State, p: nat)
    requires Inv(l, init, s) && Enabled(l, s, BeginOp(p))
    ensures Inv(l, init, Do(l, s, BeginOp(p)))
  {
    var t := Do(l, s, BeginOp(p));
    BeginOpProcsOk(l, s, p);
    SameCache(s, t);
    SameContents(l, init, s, t);
  }

  // ----- log_write -----

  lemma WriteProcsOk(l: Layout, s: State, p: nat, bn: int, data: Block)
    requires ProcsOk(l, s) && GroupsOk(s) && Enabled(l, s, Write(p, bn, data))
    ensures ProcsOk(l, Do(l, s, Write(p, bn, data))) && GroupsOk(Do(l, s, Write(p, bn, data)))
  {
    var t := Do(l, s, Write(p, bn, data));
    InsideMeansRunning(l, s, p);
    SumsUpdate(s.procs, p, t.procs[p]);
    ActiveUpdate(s.procs, p, t.procs[p]);
    var logged := s.procs[p].logged;
    assert s.procs[p] in s.procs;
    if bn in logged {
      assert logged + {bn} == logged;
    } else {
      assert |logged + {bn}| == |logged| + 1;
    }
  }

  lemma WriteCacheOk(l: Layout, s: State, p: nat, bn: int, data: Block)
    requires ListOk(l, s) && CacheOk(s) && Enabled(l, s, Write(p, bn, data)) && s.phase == Running
    ensures ListOk(l, Do(l, s, Write(p, bn, data))) && CacheOk(Do(l, s, Write(p, bn, data)))
  {
    var t := Do(l, s, Write(p, bn, data));
    forall x ensures CachedOk(t, x) {
      assert CachedOk(s, x);
    }
  }

  lemma WriteReadsOk(l: Layout, init: DiskImage, s: State, p: nat, bn: int, data: Block)
    requires ReadsOk(l, init, s) && Enabled(l, s, Write(p, bn, data)) && s.phase == Running
    ensures ReadsOk(l, init, Do(l, s, Write(p, bn, data)))
  {
    var t := Do(l, s, Write(p, bn, data));
    ApplyOne(Durable(init, s), s.current.updates, Update(s.procs[p].op, bn, data));
    assert Logical(init, t) == Logical(init, s)[bn := data];
    forall x ensures ReadOk(l, init, t, x) {
      assert ReadOk(l, init, s, x);
    }
  }

  lemma WriteOk(l: Layout, init: DiskImage, s: State, p: nat, bn: int, data: Block)
    requires Inv(l, init, s) && Enabled(l, s, Write(p, bn, data))
    ensures Inv(l, init, Do(l, s, Write(p, bn, data)))
  {
    InsideMeansRunning(l, s, p);
    WriteProcsOk(l, s, p, bn, data);
    WriteCacheOk(l, s, p, bn, data);
    WriteReadsOk(l, init, s, p, bn, data);
  }

  // ----- end_op -----

  lemma EndOpProcsOk(l: Layout, s: State, p: nat)
    requires ProcsOk(l, s) && GroupsOk(s) && Enabled(l, s, EndOp(p))
    ensures ProcsOk(l, Do(l, s, EndOp(p))) && GroupsOk(Do(l, s, EndOp(p)))
  {
    var t := Do(l, s, EndOp(p));
    InsideMeansRunning(l, s, p);
    SumsUpdate(s.procs, p, Outside);
    ActiveUpdate(s.procs, p, Outside);
    ReserveBounds(t.procs);
    forall q | 0 <= q < |t.procs| && t.outstanding == 0 ensures t.procs[q].Outside? {
      assert t.procs[q] in t.procs;
    }
  }

  lemma EndOpOk(l: Layout, init: DiskImage, s: State, p: nat)
    requires Inv(l, init, s) && Enabled(l, s, EndOp(p))
    ensures Inv(l, init, Do(l, s, EndOp(p)))
  {
    var t := Do(l, s, EndOp(p));
    InsideMeansRunning(l, s, p);
    EndOpProcsOk(l, s, p);
    SameCache(s, t);
    SameContents(l, init, s, t);
    if s.current.updates != [] {
      assert s.current.updates[0].bn in s.lh;
    }
  }

  // ----- the cache on its own -----

  lemma FetchOk(l: Layout, init: DiskImage, s: State, bn: int)
    requires Inv(l, init, s) && Enabled(l, s, Fetch(bn))
    ensures Inv(l, init, Do(l, s, Fetch(bn)))
  {
    var t := Do(l, s, Fetch(bn));
    forall x ensures CachedOk(t, x) {
      assert CachedOk(s, x);
    }
    SameContents(l, init, s, t);
  }

  lemma EvictOk(l: Layout, init: DiskImage, s: State, bn: int)
    requires Inv(l, init, s) && Enabled(l, s, Evict(bn))
    ensures Inv(l, init, Do(l, s, Evict(bn)))
  {
    var t := Do(l, s, Evict(bn));
    forall x ensures CachedOk(t, x) {
      assert CachedOk(s, x);
    }
    assert CachedOk(s, bn);
    SameContents(l, init, s, t);
  }

  // ----- power failure -----

  /** Whatever the phase, the disk and its own header say what is still to install. */
  lemma DiskPending(l: Layout, init: DiskImage, s: State)
    requires ListOk(l, s) && DurableOk(l, init, s)
    ensures GoodHead(l, s.disk) && Pending(l, Durable(init, s), s.disk, Logged(l, s.disk), 0)
  {
    var bl := Logged(l, s.disk);
    forall x | x !in bl[0..] ensures Agree(l, Durable(init, s), s.disk, x) {
      assert bl[0..] == bl;
    }
  }

  lemma CrashOk(l: Layout, init: DiskImage, s: State)
    requires Inv(l, init, s)
    ensures Inv(l, init, Do(l, s, Crash))
  {
    NobodyInside(Do(l, s, Crash).procs);
    DiskPending(l, init, s);
    forall x ensures CachedOk(Do(l, s, Crash), x) {
    }
    assert Durable(init, Do(l, s, Crash)) == Durable(init, s);
  }

  // ----- one block write of commit or recovery -----

  lemma AdvanceProcsOk(l: Layout, s: State)
    requires ListOk(l, s) && ProcsOk(l, s) && GroupsOk(s) && Enabled(l, s, Advance)
    ensures ProcsOk(l, Do(l, s, Advance)) && GroupsOk(Do(l, s, Advance))
  {
    var t := Do(l, s, Advance);
    NobodyInside(s.procs);
    if s.phase.Logging? && s.phase.k == |s.lh| {
      assert forall g :: g in t.committed + [t.current] ==> g in s.committed + [s.current] || g == NoGroup;
      assert Active(s.procs) == {};
    }
  }

  /** Writing block `bn` through the cache keeps it clean unless pinned. */
  lemma BwriteCacheOk(s: State, bn: int, data: Block, t: State)
    requires CacheOk(s) && 0 <= bn < |s.disk|
    requires t.cache == s.cache[bn := data] && t.disk == s.disk[bn := data]
    requires forall x :: x != bn ==> Pinned(t, x) == Pinned(s, x)
    ensures CacheOk(t)
  {
    forall x ensures CachedOk(t, x) {
      assert CachedOk(s, x);
    }
  }

  lemma AdvanceCacheOk(l: Layout, s: State)
    requires ListOk(l, s) && CacheOk(s) && Enabled(l, s, Advance) && !s.phase.Finishing? && !s.phase.Booting?
    ensures ListOk(l, Do(l, s, Advance)) && CacheOk(Do(l, s, Advance))
  {
    var k, t := s.phase.k, Do(l, s, Advance);
    if k < |s.lh| {
      var bn := if s.phase.Logging? then l.start + 1 + k else s.lh[k];
      assert s.lh[k..] == [s.lh[k]] + s.lh[k + 1..];
      BwriteCacheOk(s, bn, t.cache[bn], t);
    } else {
      assert s.lh[0..] == s.lh && s.lh[|s.lh|..] == [];
      BwriteCacheOk(s, l.start, t.cache[l.start], t);
    }
  }

  /** Log blocks are never pinned, so reading one gives what is on the disk. */
  lemma ReadLog(l: Layout, s: State, k: nat)
    requires ListOk(l, s) && CacheOk(s) && k < l.size
    ensures Read(s, l.start + k) == s.disk[l.start + k]
  {
    assert CachedOk(s, l.start + k);
  }

  lemma BootOk(l: Layout, init: DiskImage, s: State)
    requires Inv(l, init, s) && Enabled(l, s, Advance) && s.phase.Booting?
    ensures Inv(l, init, Do(l, s, Advance))
  {
    var t := Do(l, s, Advance);
    ReadLog(l, s, 0);
    AdvanceProcsOk(l, s);
    SameCache(s, t);
    assert Durable(init, t) == Durable(init, s);
  }

  lemma FinishOk(l: Layout, init: DiskImage, s: State)
    requires Inv(l, init, s) && Enabled(l, s, Advance) && s.phase.Finishing?
    ensures Inv(l, init, Do(l, s, Advance))
  {
    var t := Do(l, s, Advance);
    AdvanceProcsOk(l, s);
    SameCache(s, t);
    SameContents(l, init, s, t);
  }

  /** A write to the log area is invisible to readers of home blocks. */
  lemma LogAreaReadsOk(l: Layout, init: DiskImage, s: State, bn: nat, data: Block, t: State)
    requires ReadsOk(l, init, s) && l.Fits(s.disk) && l.start <= bn < l.start + l.size
    requires t.cache == s.cache[bn := data] && t.disk == s.disk[bn := data] && !Starting(s)
    requires Logical(init, t) == Logical(init, s)
    requires t.current.updates == [] || (t.current == s.current && t.lh == s.lh)
    ensures ReadsOk(l, init, t)
  {
    forall x ensures ReadOk(l, init, t, x) {
      assert ReadOk(l, init, s, x);
    }
  }

  lemma LogBlockReadsOk(l: Layout, init: DiskImage, s: State)
    requires ListOk(l, s) && ReadsOk(l, init, s) && s.phase.Logging? && s.phase.k < |s.lh| && Enabled(l, s, Advance)
    ensures ReadsOk(l, init, Do(l, s, Advance))
  {
    var t, bn := Do(l, s, Advance), l.start + 1 + s.phase.k;
    LogAreaReadsOk(l, init, s, bn, t.disk[bn], t);
  }

  lemma LogBlockDurableOk(l: Layout, init: DiskImage, s: State)
    requires ListOk(l, s) && ReadsOk(l, init, s) && s.phase.Logging? && s.phase.k < |s.lh| && Enabled(l, s, Advance)
    requires Pending(l, Durable(init, s), s.disk, [], 0) && Copied(l, init, s, s.phase.k)
    ensures DurableOk(l, init, Do(l, s, Advance))
  {
    var k, t := s.phase.k, Do(l, s, Advance);
    assert Durable(init, t) == Durable(init, s) && Logical(init, t) == Logical(init, s);
    assert ReadOk(l, init, s, s.lh[k]);
    LogBlockPending(l, Durable(init, s), s.disk, l.start + 1 + k, t.disk[l.start + 1 + k]);
  }

  lemma LogBlockPending(l: Layout, durable: DiskImage, d: DiskImage, bn: nat, data: Block)
    requires Pending(l, durable, d, [], 0) && l.start < bn < l.start + l.size
    ensures Pending(l, durable, d[bn := data], [], 0)
  {
    var e := d[bn := data];
    assert e[l.start] == d[l.start];
    forall x ensures Agree(l, durable, e, x) {
      assert Agree(l, durable, d, x);
    }
  }

  lemma HeadCommitsGroup(l: Layout, init: DiskImage, s: State)
    requires ListOk(l, s) && s.phase.Logging? && s.phase.k == |s.lh| && Enabled(l, s, Advance)
    ensures Durable(init, Do(l, s, Advance)) == Logical(init, s)
    ensures Logical(init, Do(l, s, Advance)) == Logical(init, s)
  {
    ApplyGroup(init, s.committed, s.current);
  }

  lemma HeadReadsOk(l: Layout, init: DiskImage, s: State)
    requires ListOk(l, s) && ReadsOk(l, init, s)
    requires s.phase.Logging? && s.phase.k == |s.lh| && Enabled(l, s, Advance)
    ensures ReadsOk(l, init, Do(l, s, Advance))
  {
    var t := Do(l, s, Advance);
    HeadCommitsGroup(l, init, s);
    LogAreaReadsOk(l, init, s, l.start, t.disk[l.start], t);
  }

  /** The commit point: the header write makes the open group durable. */
  lemma HeadDurableOk(l: Layout, init: DiskImage, s: State)
    requires ListOk(l, s) && CacheOk(s) && ReadsOk(l, init, s) && Copied(l, init, s, |s.lh|)
    requires s.phase.Logging? && s.phase.k == |s.lh| && Enabled(l, s, Advance)
    ensures DurableOk(l, init, Do(l, s, Advance))
  {
    var view := Logical(init, s);
    forall x | x !in s.lh ensures Agree(l, view, s.disk, x) {
      assert ReadOk(l, init, s, x) && CachedOk(s, x);
    }
    HeadPending(l, view, s.disk, s.lh, Read(s, l.start));
    HeadCommitsGroup(l, init, s);
  }

  lemma HeadPending(l: Layout, durable: DiskImage, d: DiskImage, bl: seq<int>, head: Block)
    requires GoodList(l, d, bl) && Distinct(bl) && |durable| == |d|
    requires forall x :: x !in bl ==> Agree(l, durable, d, x)
    requires forall i :: 0 <= i < |bl| ==> d[l.start + 1 + i] == durable[bl[i]]
    ensures Pending(l, durable, d[l.start := EncodeHead(head, bl)], bl, 0)
  {
    HeadRoundTrip(head, bl);
    var e := d[l.start := EncodeHead(head, bl)];
    assert GoodHead(l, e) && Logged(l, e) == bl && bl[0..] == bl;
    forall x | x !in bl ensures Agree(l, durable, e, x) {
      assert Agree(l, durable, d, x);
    }
  }

  lemma InstallPending(l: Layout, durable: DiskImage, d: DiskImage, bl: seq<int>, k: nat, data: Block)
    requires Pending(l, durable, d, bl, k) && k < |bl| && data == d[l.start + 1 + k]
    ensures Pending(l, durable, d[bl[k] := data], bl, k + 1)
  {
    var e := d[bl[k] := data];
    assert l.Home(d, bl[k]) && e[l.start] == d[l.start];
    assert bl[k..] == [bl[k]] + bl[k + 1..];
    forall x | x !in bl[k + 1..] ensures Agree(l, durable, e, x) {
      assert x == bl[k] || Agree(l, durable, d, x);
    }
  }

  lemma ClearedPending(l: Layout, durable: DiskImage, d: DiskImage, bl: seq<int>, head: Block)
    requires Pending(l, durable, d, bl, |bl|)
    ensures Pending(l, durable, d[l.start := EncodeHead(head, [])], [], 0)
  {
    HeadRoundTrip(head, []);
    var e := d[l.start := EncodeHead(head, [])];
    assert bl[|bl|..] == [];
    forall x ensures Agree(l, durable, e, x) {
      assert Agree(l, durable, d, x);
    }
  }

  lemma InstallReadsOk(l: Layout, init: DiskImage, s: State)
    requires ListOk(l, s) && CacheOk(s) && ReadsOk(l, init, s) && s.current == NoGroup
    requires (s.phase.Installing? || s.phase.Recovering?) && Enabled(l, s, Advance)
    requires Pending(l, Durable(init, s), s.disk, s.lh, s.phase.k) && s.phase.k < |s.lh|
    ensures ReadsOk(l, init, Do(l, s, Advance))
  {
    var k, t := s.phase.k, Do(l, s, Advance);
    ReadLog(l, s, 1 + k);
    assert Logical(init, t) == Logical(init, s) == Durable(init, s);
    if s.phase.Installing? {
      forall x ensures ReadOk(l, init, t, x) {
        assert ReadOk(l, init, s, x);
      }
    }
  }

  lemma InstallStep(l: Layout, s: State)
    requires ListOk(l, s) && CacheOk(s)
    requires (s.phase.Installing? || s.phase.Recovering?) && Enabled(l, s, Advance) && s.phase.k < |s.lh|
    ensures var t, k := Do(l, s, Advance), s.phase.k;
      && t.disk == s.disk[s.lh[k] := s.disk[l.start + 1 + k]]
      && t.lh == s.lh && t.committed == s.committed && t.current == s.current
      && t.phase == if s.phase.Installing? then Installing(k + 1) else Recovering(k + 1)
  {
    ReadLog(l, s, 1 + s.phase.k);
  }

  lemma InstallDurableOk(l: Layout, init: DiskImage, s: State)
    requires ListOk(l, s) && CacheOk(s) && s.current == NoGroup
    requires (s.phase.Installing? || s.phase.Recovering?) && Enabled(l, s, Advance)
    requires Pending(l, Durable(init, s), s.disk, s.lh, s.phase.k) && s.phase.k < |s.lh|
    ensures DurableOk(l, init, Do(l, s, Advance))
  {
    InstallStep(l, s);
    InstallPending(l, Durable(init, s), s.disk, s.lh, s.phase.k, s.disk[l.start + 1 + s.phase.k]);
    PendingDurable(l, init, Do(l, s, Advance));
  }

  lemma PendingDurable(l: Layout, init: DiskImage, t: State)
    requires (t.phase.Installing? || t.phase.Recovering?) && t.current == NoGroup
    requires Pending(l, Durable(init, t), t.disk, t.lh, t.phase.k)
    ensures DurableOk(l, init, t)
  {
  }

  lemma ClearReadsOk(l: Layout, init: DiskImage, s: State)
    requires ListOk(l, s) && CacheOk(s) && ReadsOk(l, init, s) && s.current == NoGroup
    requires (s.phase.Installing? || s.phase.Recovering?) && Enabled(l, s, Advance)
    requires Pending(l, Durable(init, s), s.disk, s.lh, s.phase.k) && s.phase.k == |s.lh|
    ensures ReadsOk(l, init, Do(l, s, Advance))
  {
    var t := Do(l, s, Advance);
    assert Logical(init, t) == Logical(init, s) == Durable(init, s);
    if s.phase.Installing? {
      LogAreaReadsOk(l, init, s, l.start, t.disk[l.start], t);
    } else {
      assert s.lh[|s.lh|..] == [];
      forall x ensures ReadOk(l, init, t, x) {
        assert CachedOk(s, x) && Agree(l, Durable(init, s), s.disk, x);
      }
    }
  }

  lemma ClearDurableOk(l: Layout, init: DiskImage, s: State)
    requires ListOk(l, s) && s.current == NoGroup
    requires (s.phase.Installing? || s.phase.Recovering?) && Enabled(l, s, Advance)
    requires Pending(l, Durable(init, s), s.disk, s.lh, s.phase.k) && s.phase.k == |s.lh|
    ensures DurableOk(l, init, Do(l, s, Advance))
  {
    ClearedPending(l, Durable(init, s), s.disk, s.lh, Read(s, l.start));
    assert Durable(init, Do(l, s, Advance)) == Durable(init, s);
  }

  lemma AdvanceOk(l: Layout, init: DiskImage, s: State)
    requires Inv(l, init, s) && Enabled(l, s, Advance)
    ensures Inv(l, init, Do(l, s, Advance))
  {
    if s.phase.Finishing? {
      FinishOk(l, init, s);
    } else if s.phase.Booting? {
      BootOk(l, init, s);
    } else {
      AdvanceProcsOk(l, s);
      AdvanceCacheOk(l, s);
      if s.phase.k < |s.lh| {
        if s.phase.Logging? {
          LogBlockReadsOk(l, init, s);
          LogBlockDurableOk(l, init, s);
        } else {
          InstallReadsOk(l, init, s);
          InstallDurableOk(l, init, s);
        }
      } else {
        if s.phase.Logging? {
          HeadReadsOk(l, init, s);
          HeadDurableOk(l, init, s);
        } else {
          ClearReadsOk(l, init, s);
          ClearDurableOk(l, init, s);
        }
      }
    }
  }

  lemma StepOk(l: Layout, init: DiskImage, s: State, a: Action)
    requires Inv(l, init, s) && Enabled(l, s, a)
    ensures Inv(l, init, Do(l, s, a))
  {
    match a
    case BeginOp(p) => BeginOpOk(l, init, s, p);
    case Write(p, bn, data) => WriteOk(l, init, s, p, bn, data);
    case EndOp(p) => EndOpOk(l, init, s, p);
    case Fetch(bn) => FetchOk(l, init, s, bn);
    case Evict(bn) => EvictOk(l, init, s, bn);
    case Advance => AdvanceOk(l, init, s);
    case Crash => CrashOk(l, init, s);
  }

  // ----- Whole runs -----

  lemma {:induction false} RunOk(l: Layout, states: seq<State>, actions: seq<Action>, i: nat)
    requires Run(l, states, actions) && i <= |actions|
    ensures Inv(l, states[0].disk, states[i])
  {
    if i == 0 {
      InitOk(l, states[0]);
    } else {
      RunOk(l, states, actions, i - 1);
      StepOk(l, states[0].disk, states[i - 1], actions[i - 1]);
    }
  }

  /** Group commit: at every moment of every run, recovering the disk as it is gives the
      initial contents after the committed groups; every operation in a committed group has
      ended, all its updates are in that group, and it is in no other group. */
  lemma GroupCommit(l: Layout, states: seq<State>, actions: seq<Action>, i: nat)
    requires Run(l, states, actions) && i <= |actions|
    ensures var s, init := states[i], states[0].disk;
      && GoodHead(l, s.disk)
      && SameHome(l, ApplyGroups(init, s.committed), Recovered(l, s.disk))
      && (s.phase.Running? ==> SameHome(l, ApplyGroups(init, s.committed), s.disk))
      && (forall g :: g in s.committed ==> g.ops <= s.ended && forall u :: u in g.updates ==> u.op in g.ops)
      && GroupsApart(s)
  {
    var s, init := states[i], states[0].disk;
    RunOk(l, states, actions, i);
    DiskPending(l, init, s);
    PendingRecovers(l, Durable(init, s), s.disk, Logged(l, s.disk), 0);
    forall g | g in s.committed ensures forall u :: u in g.updates ==> u.op in g.ops {
      assert g in s.committed + [s.current];
    }
  }

  /** The header write of a commit. */
  predicate WritesHead(s: State, a: Action) {
    a.Advance? && s.phase.Logging? && s.phase.k == |s.lh|
  }

  lemma StepCommits(l: Layout, s: State, a: Action)
    requires Enabled(l, s, a)
    ensures Do(l, s, a).committed == if WritesHead(s, a) then s.committed + [s.current] else s.committed
  {
  }

  /** At step `k` a commit makes `g` the committed group number `m`. */
  ghost predicate Commits(states: seq<State>, actions: seq<Action>, k: nat, g: Group, m: nat)
    requires |states| == |actions| + 1 && k < |actions|
  {
    WritesHead(states[k], actions[k]) && |states[k].committed| == m && states[k].current == g
  }

  /** Group number `m` at moment `j` was committed between `i` and `j`. */
  ghost predicate CommittedSince(states: seq<State>, actions: seq<Action>, i: nat, j: nat, m: nat)
    requires |states| == |actions| + 1 && j <= |actions|
  {
    m < |states[j].committed| && exists k: nat :: i <= k < j && Commits(states, actions, k, states[j].committed[m], m)
  }

  /** Committing is forever: through every part of every run, crashes and recoveries included,
      the committed groups stay, in their order, and each further one is the group that was open
      when a commit wrote its header. */
  lemma {:induction false} CommittedGrows(l: Layout, states: seq<State>, actions: seq<Action>, i: nat, j: nat)
    requires Run(l, states, actions) && i <= j <= |actions|
    ensures states[i].committed <= states[j].committed
    ensures forall m: nat :: |states[i].committed| <= m < |states[j].committed| ==>
        CommittedSince(states, actions, i, j, m)
  {
    if i < j {
      CommittedGrows(l, states, actions, i, j - 1);
      var s, t := states[j - 1], states[j];
      assert t == Do(l, s, actions[j - 1]);
      StepCommits(l, s, actions[j - 1]);
      forall m: nat | |states[i].committed| <= m < |t.committed| ensures CommittedSince(states, actions, i, j, m) {
        if m < |s.committed| {
          assert CommittedSince(states, actions, i, j - 1, m);
          var k: nat :| i <= k < j - 1 && Commits(states, actions, k, s.committed[m], m);
          assert Commits(states, actions, k, t.committed[m], m);
        } else {
          assert Commits(states, actions, j - 1, t.committed[m], m);
        }
      }
    }
  }

  /** Every reader, between recoveries, sees the last update of each block. */
  lemma ReadersSeeUpdates(l: Layout, states: seq<State>, actions: seq<Action>, i: nat, bn: int)
    requires Run(l, states, actions) && i <= |actions| && !Starting(states[i]) && l.Home(states[i].disk, bn)
    ensures |states[0].disk| == |states[i].disk|
    ensures Read(states[i], bn) == Logical(states[0].disk, states[i])[bn]
  {
    RunOk(l, states, actions, i);
    assert ReadOk(l, states[0].disk, states[i], bn);
  }

  /** The panic "log.committing" in end_op cannot happen, nor can log_write run while a
      commit copies buffers. */
  lemma NobodyInsideDuringCommit(l: Layout, states: seq<State>, actions: seq<Action>, i: nat, p: nat)
    requires Run(l, states, actions) && i <= |actions| && p < |states[i].procs|
    ensures states[i].committing ==> states[i].outstanding == 0
    ensures states[i].procs[p].Inside? ==> !states[i].committing && states[i].outstanding >= 1
  {
    var s := states[i];
    RunOk(l, states, actions, i);
    ReserveBounds(s.procs);
    if s.committing { NobodyInside(s.procs); }
    if s.procs[p].Inside? { assert s.procs[p] in s.procs; }
  }

  /** install_trans is about to copy the log's block for home block `x`. */
  predicate Installs(s: State, a: Action, x: int) {
    a.Advance? && (s.phase.Installing? || s.phase.Recovering?) && s.phase.k < |s.lh| && x == s.lh[s.phase.k]
  }

  lemma StepWritesHome(l: Layout, s: State, a: Action, x: int)
    requires Enabled(l, s, a) && l.Home(s.disk, x)
    ensures |Do(l, s, a).disk| == |s.disk|
    ensures Do(l, s, a).disk[x] == if Installs(s, a, x) then Read(s, l.start + 1 + s.phase.k) else s.disk[x]
  {
  }

  ghost predicate NotInstalled(states: seq<State>, actions: seq<Action>, i: nat, j: nat, x: int)
    requires |states| == |actions| + 1 && j <= |actions|
  {
    forall k :: i <= k < j ==> !Installs(states[k], actions[k], x)
  }

  /** Step `k` is the last one before `j` to copy home block `x`, which has what it has copied. */
  ghost predicate LastInstall(l: Layout, states: seq<State>, actions: seq<Action>, k: nat, j: nat, x: int)
    requires |states| == |actions| + 1 && k < j <= |actions|
  {
    && Installs(states[k], actions[k], x) && NotInstalled(states, actions, k + 1, j, x)
    && 0 <= x < |states[j].disk| && 0 <= l.start + 1 + states[k].phase.k < |states[k].disk|
    && states[j].disk[x] == Read(states[k], l.start + 1 + states[k].phase.k)
  }

  /** Home block `x` at moment `j`, from moment `i` on. */
  ghost predicate HomeSince(l: Layout, states: seq<State>, actions: seq<Action>, i: nat, j: nat, x: int)
    requires |states| == |actions| + 1 && i <= j <= |actions| && 0 <= x < |states[i].disk|
  {
    && |states[j].disk| == |states[i].disk|
    && if NotInstalled(states, actions, i, j, x) then states[j].disk[x] == states[i].disk[x]
       else exists k: nat :: i <= k < j && LastInstall(l, states, actions, k, j, x)
  }

  /** What step `k` does to home block `x`. */
  ghost predicate StepCopies(l: Layout, states: seq<State>, actions: seq<Action>, k: nat, x: int)
    requires |states| == |actions| + 1
  {
    k < |actions| && l.Home(states[k].disk, x) ==>
      && var s, t := states[k], states[k + 1];
      && |t.disk| == |s.disk|
      && if Installs(s, actions[k], x) then
           0 <= l.start + 1 + s.phase.k < |s.disk| && t.disk[x] == Read(s, l.start + 1 + s.phase.k)
         else t.disk[x] == s.disk[x]
  }

  lemma RunCopies(l: Layout, states: seq<State>, actions: seq<Action>, k: nat, x: int)
    requires Run(l, states, actions)
    ensures StepCopies(l, states, actions, k, x)
  {
    if k < |actions| && l.Home(states[k].disk, x) {
      var s, a := states[k], actions[k];
      assert Enabled(l, s, a) && states[k + 1] == Do(l, s, a);
      StepWritesHome(l, s, a, x);
    }
  }

  lemma {:induction false} HomeFrom(l: Layout, states: seq<State>, actions: seq<Action>, i: nat, j: nat, x: int)
    requires |states| == |actions| + 1 && i <= j <= |actions| && l.Home(states[i].disk, x)
    requires forall k: nat :: StepCopies(l, states, actions, k, x)
    ensures HomeSince(l, states, actions, i, j, x)
  {
    if i < j {
      HomeFrom(l, states, actions, i, j - 1, x);
      assert StepCopies(l, states, actions, j - 1, x);
      if Installs(states[j - 1], actions[j - 1], x) {
        assert LastInstall(l, states, actions, j - 1, j, x);
      } else if !NotInstalled(states, actions, i, j - 1, x) {
        var k: nat :| i <= k < j - 1 && LastInstall(l, states, actions, k, j - 1, x);
        assert LastInstall(l, states, actions, k, j, x);
      }
    }
  }

  /** Through every part of every run, a home block on disk is what the last install_trans has
      copied there from the log, or what it was when there has been none. */
  lemma OnlyInstallWritesHome(l: Layout, states: seq<State>, actions: seq<Action>, i: nat, j: nat, x: int)
    requires Run(l, states, actions) && i <= j <= |actions| && l.Home(states[i].disk, x)
    ensures HomeSince(l, states, actions, i, j, x)
  {
    forall k: nat ensures StepCopies(l, states, actions, k, x) { RunCopies(l, states, actions, k, x); }
    HomeFrom(l, states, actions, i, j, x);
  }

  // ----- Log space -----

  /** Process `p` is about to log `bn`, with at most `m` distinct blocks in its operation. */
  ghost predicate Logs(l: Layout, s: State, p: nat, bn: int, m: int) {
    p < |s.procs| && s.procs[p].Inside? && l.Home(s.disk, bn) && |s.procs[p].logged + {bn}| <= m
  }

  /** An operation whose distinct blocks, counting this one, are at most MAXOPBLOCKS - 2
      never meets "too big a transaction", with the log that mkfs makes. */
  lemma SmallOpsFit(l: Layout, init: DiskImage, s: State, p: nat, bn: int)
    requires Inv(l, init, s) && l.size >= LOGSIZE && Logs(l, s, p, bn, MAXOPBLOCKS - 2)
    ensures !LogWritePanics(l, s)
  {
    InsideMeansRunning(l, s, p);
    ReserveBounds(s.procs);
    var logged := s.procs[p].logged;
    assert s.procs[p] in s.procs;
    if bn in logged { assert logged + {bn} == logged; }
  }

  /** Nothing that one operation of at most `m` blocks does can meet a panic, while the others
      may log MAXOPBLOCKS blocks each. */
  ghost predicate NeverPanics(l: Layout, m: int) {
    forall states: seq<State>, actions: seq<Action>, p: nat, bn: int ::
      Run(l, states, actions) && Logs(l, states[|actions|], p, bn, m) ==>
        !LogWritePanics(l, states[|actions|])
  }

  /** With the log of mkfs, of LOGSIZE blocks of which one is the header, an operation is safe
      beside any others if and only if it logs at most MAXOPBLOCKS - 2 distinct blocks. */
  lemma TransactionLimit(l: Layout, m: int)
    requires l.size == LOGSIZE
    ensures NeverPanics(l, m) <==> m <= MAXOPBLOCKS - 2
  {
    if m <= MAXOPBLOCKS - 2 {
      forall states: seq<State>, actions: seq<Action>, p: nat, bn: int |
          Run(l, states, actions) && Logs(l, states[|actions|], p, bn, m)
        ensures !LogWritePanics(l, states[|actions|])
      {
        RunOk(l, states, actions, |actions|);
        SmallOpsFit(l, states[0].disk, states[|actions|], p, bn);
      }
    } else {
      var states, actions := CrowdedRun(l, 29);
      var s := states[|actions|];
      var bn := Spot(l, 20);
      assert s.procs[2].logged + {bn} == LoggedBy(l, 2, 29);
      SpotsCount(l, MAXOPBLOCKS * 2, 29);
      assert Logs(l, s, 2, bn, m) && LogWritePanics(l, s);
    }
  }

  // ----- Log space, when every operation keeps to the same limit -----

  ghost predicate Keeps(s: State, a: Action, m: int) {
    a.Write? && a.p < |s.procs| && s.procs[a.p].Inside? ==> |s.procs[a.p].logged + {a.bn}| <= m
  }

  /** Every operation of the run logs at most `m` distinct blocks. */
  ghost predicate AllKeep(states: seq<State>, actions: seq<Action>, m: int)
    requires |states| == |actions| + 1
  {
    forall i :: 0 <= i < |actions| ==> Keeps(states[i], actions[i], m)
  }

  ghost predicate NeverPanicsAlike(l: Layout, m: int) {
    forall states: seq<State>, actions: seq<Action>, p: nat, bn: int ::
      Run(l, states, actions) && AllKeep(states, actions, m) && Logs(l, states[|actions|], p, bn, m) ==>
        !LogWritePanics(l, states[|actions|])
  }

  /** What begin_op's test leaves when every operation needs one block less than it reserves:
      the first one finds an empty log, and any two leave two blocks over. */
  ghost predicate Snug(s: State) {
    && (forall p :: p in s.procs && p.Inside? ==> |p.logged| <= MAXOPBLOCKS - 1)
    && (s.phase.Running? && s.outstanding == 0 ==> s.lh == [])
    && (!Starting(s) && s.outstanding >= 1 ==> |s.lh| + Reserve(s.procs) - Count(s.procs) <= LOGSIZE - 2)
  }

  lemma {:induction false} SnugBounds(procs: seq<Proc>)
    requires forall p :: p in procs && p.Inside? ==> |p.logged| <= MAXOPBLOCKS - 1
    ensures Count(procs) <= Reserve(procs) <= MAXOPBLOCKS * Count(procs)
    ensures forall p :: p in procs && p.Inside? ==> Reserve(procs) - Count(procs) >= MAXOPBLOCKS - 1 - |p.logged|
    ensures forall p :: p in procs && p.Inside? ==> Count(procs) >= 1
  {
    if procs != [] { SnugBounds(procs[1..]); }
  }

  lemma BeginOpSnug(l: Layout, s: State, p: nat)
    requires ProcsOk(l, s) && Snug(s) && Enabled(l, s, BeginOp(p))
    ensures Snug(Do(l, s, BeginOp(p)))
  {
    SumsUpdate(s.procs, p, Inside(s.nextOp, {}));
    SnugBounds(s.procs);
  }

  lemma WriteSnug(l: Layout, s: State, p: nat, bn: int, data: Block)
    requires ProcsOk(l, s) && Snug(s) && Enabled(l, s, Write(p, bn, data))
    requires |s.procs[p].logged + {bn}| <= MAXOPBLOCKS - 1
    ensures Snug(Do(l, s, Write(p, bn, data)))
  {
    var t := Do(l, s, Write(p, bn, data));
    InsideMeansRunning(l, s, p);
    SumsUpdate(s.procs, p, t.procs[p]);
    var logged := s.procs[p].logged;
    assert s.procs[p] in s.procs;
    if bn in logged { assert logged + {bn} == logged; } else { assert |logged + {bn}| == |logged| + 1; }
  }

  lemma EndOpSnug(l: Layout, s: State, p: nat)
    requires ProcsOk(l, s) && Snug(s) && Enabled(l, s, EndOp(p))
    ensures Snug(Do(l, s, EndOp(p)))
  {
    InsideMeansRunning(l, s, p);
    assert s.procs[p] in s.procs;
    SumsUpdate(s.procs, p, Outside);
  }

  lemma StepSnug(l: Layout, init: DiskImage, s: State, a: Action)
    requires Inv(l, init, s) && Snug(s) && Enabled(l, s, a) && Keeps(s, a, MAXOPBLOCKS - 1)
    ensures Snug(Do(l, s, a))
  {
    match a
    case BeginOp(p) => BeginOpSnug(l, s, p);
    case Write(p, bn, data) => WriteSnug(l, s, p, bn, data);
    case EndOp(p) => EndOpSnug(l, s, p);
    case Fetch(_) =>
    case Evict(_) =>
    case Advance => NobodyInsideNow(l, s);
    case Crash => NobodyInside(Do(l, s, Crash).procs);
  }

  /** During a commit or a recovery. */
  lemma NobodyInsideNow(l: Layout, s: State)
    requires ProcsOk(l, s) && s.phase != Running
    ensures s.outstanding == 0
  {
    NobodyInside(s.procs);
  }

  lemma InitSnug(l: Layout, s: State)
    requires Init(l, s)
    ensures Snug(s)
  {
    assert forall p :: p in s.procs ==> p.Outside?;
  }

  lemma {:induction false} RunSnug(l: Layout, states: seq<State>, actions: seq<Action>, i: nat)
    requires Run(l, states, actions) && AllKeep(states, actions, MAXOPBLOCKS - 1) && i <= |actions|
    ensures Snug(states[i])
  {
    if i == 0 {
      InitSnug(l, states[0]);
    } else {
      RunSnug(l, states, actions, i - 1);
      RunOk(l, states, actions, i - 1);
      assert Keeps(states[i - 1], actions[i - 1], MAXOPBLOCKS - 1);
      StepSnug(l, states[0].disk, states[i - 1], actions[i - 1]);
    }
  }

  lemma SnugFits(l: Layout, init: DiskImage, s: State, p: nat, bn: int)
    requires Inv(l, init, s) && Snug(s) && l.size >= LOGSIZE && Logs(l, s, p, bn, MAXOPBLOCKS - 1)
    ensures !LogWritePanics(l, s)
  {
    InsideMeansRunning(l, s, p);
    SnugBounds(s.procs);
    assert s.procs[p] in s.procs;
  }

  /** param.h promises room for MAXOPBLOCKS blocks to every operation.  With the log of mkfs one
      less is the limit: operations of at most `m` blocks never meet "too big a transaction" if
      and only if `m` is at most MAXOPBLOCKS - 1. */
  lemma UniformLimit(l: Layout, m: int)
    requires l.size == LOGSIZE
    ensures NeverPanicsAlike(l, m) <==> m <= MAXOPBLOCKS - 1
  {
    if m <= MAXOPBLOCKS - 1 {
      forall states: seq<State>, actions: seq<Action>, p: nat, bn: int |
          Run(l, states, actions) && AllKeep(states, actions, m) && Logs(l, states[|actions|], p, bn, m)
        ensures !LogWritePanics(l, states[|actions|])
      {
        RunOk(l, states, actions, |actions|);
        RunSnug(l, states, actions, |actions|);
        SnugFits(l, states[0].disk, states[|actions|], p, bn);
      }
    } else {
      var states, actions := CrowdedRun(l, 29);
      var s := states[|actions|];
      assert s.procs[2].logged + {Spot(l, 20)} == LoggedBy(l, 2, 29);
      SpotsCount(l, MAXOPBLOCKS * 2, 29);
      forall i | 0 <= i < |actions| ensures Keeps(states[i], actions[i], m) {
        assert Enabled(l, states[i], actions[i]);
      }
      assert Logs(l, s, 2, Spot(l, 20), m) && LogWritePanics(l, s);
    }
  }

  // ----- The runs that meet the panic -----

  lemma Extend(l: Layout, states: seq<State>, actions: seq<Action>, a: Action)
    requires Run(l, states, actions) && Enabled(l, states[|actions|], a)
    ensures Run(l, states + [Do(l, states[|actions|], a)], actions + [a])
  {
    var states', actions' := states + [Do(l, states[|actions|], a)], actions + [a];
    forall i | 0 <= i < |actions'|
      ensures Enabled(l, states'[i], actions'[i]) && states'[i + 1] == Do(l, states'[i], actions'[i])
    {
      if i < |actions| { assert states'[i] == states[i] && states'[i + 1] == states[i + 1]; }
    }
  }

  /** The `j`-th block behind the log. */
  function Spot(l: Layout, j: int): int {
    l.start + l.size + j
  }

  /** The blocks that process `q` of three has logged when `i` blocks are logged in all. */
  ghost function LoggedBy(l: Layout, q: nat, i: nat): set<int> {
    Spots(l, MAXOPBLOCKS * q, i)
  }

  ghost function Spots(l: Layout, lo: nat, i: nat): set<int> {
    set j | lo <= j < lo + MAXOPBLOCKS && j < i :: Spot(l, j)
  }

  lemma {:induction false} SpotsCount(l: Layout, lo: nat, i: nat)
    ensures |Spots(l, lo, i)| == if i <= lo then 0 else if i >= lo + MAXOPBLOCKS then MAXOPBLOCKS else i - lo
  {
    if i == 0 {
      assert Spots(l, lo, i) == {};
    } else {
      SpotsCount(l, lo, i - 1);
      if lo <= i - 1 < lo + MAXOPBLOCKS {
        assert Spots(l, lo, i) == Spots(l, lo, i - 1) + {Spot(l, i - 1)};
      } else {
        assert Spots(l, lo, i) == Spots(l, lo, i - 1);
      }
    }
  }

  /** Three operations in progress, which have logged `i` distinct blocks, the first one
      MAXOPBLOCKS of them, then the second one. */
  ghost predicate Crowded(l: Layout, s: State, i: nat) {
    && |s.disk| == l.start + l.size + 100 && s.phase == Running && !s.committing && s.outstanding == 3
    && |s.lh| == i && (forall j :: 0 <= j < i ==> s.lh[j] == Spot(l, j))
    && |s.procs| == 3 && forall q: nat :: q < 3 ==> s.procs[q] == Inside(q, LoggedBy(l, q, i))
  }

  lemma LoggedByStep(l: Layout, q: nat, i: nat)
    ensures LoggedBy(l, q, i + 1) ==
            if MAXOPBLOCKS * q <= i < MAXOPBLOCKS * q + MAXOPBLOCKS then LoggedBy(l, q, i) + {Spot(l, i)}
            else LoggedBy(l, q, i)
  {
  }

  lemma CrowdedStep(l: Layout, s: State, i: nat, q: nat)
    requires l.size == LOGSIZE && i < 29 && q == i / MAXOPBLOCKS && Crowded(l, s, i)
    ensures var a := Write(q, Spot(l, i), s.disk[0]);
            Enabled(l, s, a) && Crowded(l, Do(l, s, a), i + 1)
  {
    SpotsCount(l, MAXOPBLOCKS * q, i + 1);
    forall r: nat | r < 3 ensures LoggedBy(l, r, i + 1) ==
        if r == q then LoggedBy(l, r, i) + {Spot(l, i)} else LoggedBy(l, r, i)
    {
      LoggedByStep(l, r, i);
    }
  }

  lemma {:induction false} CrowdedRun(l: Layout, i: nat) returns (states: seq<State>, actions: seq<Action>)
    requires l.size == LOGSIZE && i <= 29
    ensures Run(l, states, actions) && Crowded(l, states[|actions|], i)
  {
    if i == 0 {
      states, actions := ThreeBegin(l);
    } else {
      states, actions := CrowdedRun(l, i - 1);
      var s, q := states[|actions|], (i - 1) / MAXOPBLOCKS;
      CrowdedStep(l, s, i - 1, q);
      var a := Write(q, Spot(l, i - 1), s.disk[0]);
      Extend(l, states, actions, a);
      states, actions := states + [Do(l, s, a)], actions + [a];
    }
  }

  lemma ThreeBegin(l: Layout) returns (states: seq<State>, actions: seq<Action>)
    requires l.size == LOGSIZE
    ensures Run(l, states, actions) && Crowded(l, states[|actions|], 0)
  {
    states, actions := Booted(l);
    var k: nat := 0;
    while k < 3
      invariant k <= 3 && Run(l, states, actions) && Begun(l, states[|actions|], k)
    {
      var s := states[|actions|];
      Extend(l, states, actions, BeginOp(k));
      states, actions := states + [Do(l, s, BeginOp(k))], actions + [BeginOp(k)];
      k := k + 1;
    }
    assert forall q: nat :: LoggedBy(l, q, 0) == {};
  }

  /** Of three processes the first `k` have begun an operation, and nothing is logged. */
  ghost predicate Begun(l: Layout, s: State, k: nat) {
    && |s.disk| == l.start + l.size + 100 && s.phase == Running && !s.committing && s.lh == []
    && s.outstanding == k == s.nextOp && |s.procs| == 3
    && forall q: nat :: q < 3 ==> s.procs[q] == if q < k then Inside(q, {}) else Outside
  }

  lemma Booted(l: Layout) returns (states: seq<State>, actions: seq<Action>)
    requires l.size == LOGSIZE
    ensures Run(l, states, actions) && Begun(l, states[|actions|], 0)
  {
    var zero: Block := seq(WORDS, i => 0);
    var disk: DiskImage := seq(l.start + l.size + 100, i => zero);
    var s0 := State(disk, map[], Booting, [], 0, false, [Outside, Outside, Outside], 0, {}, NoGroup, []);
    var s1 := Do(l, s0, Advance);
    states, actions := [s0, s1, Do(l, s1, Advance)], [Advance, Advance];
  }

  // ----- The log can always be emptied -----

  /** Nobody inside, nothing logged, no commit or recovery. */
  ghost predicate Quiet(s: State) {
    && s.phase.Running? && s.lh == [] && s.outstanding == 0 && !s.committing
    && forall p :: 0 <= p < |s.procs| ==> s.procs[p].Outside?
  }

  /** How many steps it takes to get there, at most. */
  ghost function Left(s: State): int {
    match s.phase
    case Running => if Count(s.procs) == 0 then 0 else Count(s.procs) + 2 * |s.lh| + 4
    case Logging(k) => 2 * |s.lh| + 3 - k
    case Installing(k) => |s.lh| - k + 2
    case Finishing => 1
    case Booting => LOGSIZE + 2
    case Recovering(k) => |s.lh| - k + 1
  }

  ghost predicate Emptied(s: State) {
    s.phase.Running? && s.outstanding == 0 ==> s.lh == []
  }

  lemma StepEmptied(l: Layout, init: DiskImage, s: State, a: Action)
    requires Inv(l, init, s) && Emptied(s) && Enabled(l, s, a)
    ensures Emptied(Do(l, s, a))
  {
    if a.Write? { InsideMeansRunning(l, s, a.p); }
  }

  lemma {:induction false} RunEmptied(l: Layout, states: seq<State>, actions: seq<Action>, i: nat)
    requires Run(l, states, actions) && i <= |actions|
    ensures Emptied(states[i])
  {
    if i > 0 {
      RunEmptied(l, states, actions, i - 1);
      RunOk(l, states, actions, i - 1);
      StepEmptied(l, states[0].disk, states[i - 1], actions[i - 1]);
    }
  }

  lemma {:induction false} SomebodyInside(procs: seq<Proc>) returns (p: nat)
    requires Count(procs) > 0
    ensures p < |procs| && procs[p].Inside?
  {
    if procs[0].Inside? {
      p := 0;
    } else {
      p := SomebodyInside(procs[1..]);
      p := p + 1;
    }
  }

  lemma CanAdvance(l: Layout, init: DiskImage, s: State)
    requires ListOk(l, s) && CacheOk(s) && DurableOk(l, init, s) && !s.phase.Running?
    ensures Enabled(l, s, Advance)
  {
    if s.phase.Booting? { ReadLog(l, s, 0); }
  }

  lemma AdvanceLeft(l: Layout, s: State)
    requires Enabled(l, s, Advance) && ProcsOk(l, s)
    ensures 0 <= Left(Do(l, s, Advance)) < Left(s)
  {
    NobodyInside(s.procs);
  }

  lemma AdvanceLogical(l: Layout, init: DiskImage, s: State)
    requires ListOk(l, s) && Enabled(l, s, Advance)
    ensures Logical(init, Do(l, s, Advance)) == Logical(init, s)
  {
    if s.phase.Logging? && s.phase.k == |s.lh| { HeadCommitsGroup(l, init, s); }
  }

  lemma CanEnd(l: Layout, init: DiskImage, s: State, p: nat)
    requires Inv(l, init, s) && p < |s.procs| && s.procs[p].Inside?
    ensures Enabled(l, s, EndOp(p)) && 0 <= Left(Do(l, s, EndOp(p))) < Left(s)
    ensures Logical(init, Do(l, s, EndOp(p))) == Logical(init, s)
  {
    InsideMeansRunning(l, s, p);
    SumsUpdate(s.procs, p, Outside);
    ReserveBounds(s.procs);
    assert s.procs[p] in s.procs;
  }

  lemma UpdatesLogged(us: seq<Update>, lh: seq<int>)
    requires forall u :: u in us ==> u.bn in lh
    ensures lh == [] ==> us == []
  {
    if us != [] { assert us[0] in us; }
  }

  lemma QuietHolds(l: Layout, init: DiskImage, s: State, x: int)
    requires Inv(l, init, s) && Quiet(s) && l.Home(s.disk, x)
    ensures s.disk[x] == Logical(init, s)[x]
  {
    UpdatesLogged(s.current.updates, s.lh);
    assert Agree(l, Durable(init, s), s.disk, x);
  }

  /** The next step towards an empty log. */
  lemma NextToQuiet(l: Layout, init: DiskImage, s: State) returns (a: Action)
    requires Inv(l, init, s) && Emptied(s) && !Quiet(s)
    ensures (a.EndOp? || a.Advance?) && Enabled(l, s, a) && 0 <= Left(Do(l, s, a)) < Left(s)
    ensures Logical(init, Do(l, s, a)) == Logical(init, s)
  {
    if s.phase.Running? {
      assert Count(s.procs) > 0 by {
        if Count(s.procs) == 0 {
          ReserveBounds(s.procs);
          forall p | 0 <= p < |s.procs| ensures s.procs[p].Outside? { assert s.procs[p] in s.procs; }
        }
      }
      var p := SomebodyInside(s.procs);
      CanEnd(l, init, s, p);
      a := EndOp(p);
    } else {
      CanAdvance(l, init, s);
      AdvanceLeft(l, s);
      AdvanceLogical(l, init, s);
      a := Advance;
    }
  }

  /** No run ends where the log is stuck: from its last state end_ops, commits and recovery lead to
      an empty log with nobody inside, and then the disk holds, in place, every update that readers
      saw. */
  lemma CanSettle(l: Layout, states: seq<State>, actions: seq<Action>)
      returns (states': seq<State>, actions': seq<Action>)
    requires Run(l, states, actions)
    ensures Run(l, states', actions') && actions <= actions' && states <= states'
    ensures forall i :: |actions| <= i < |actions'| ==> actions'[i].EndOp? || actions'[i].Advance?
    ensures Quiet(states'[|actions'|]) && |states'[|actions'|].disk| == |states[0].disk|
    ensures forall x :: l.Home(states[0].disk, x) ==>
              states'[|actions'|].disk[x] == Logical(states[0].disk, states[|actions|])[x]
  {
    ghost var init := states[0].disk;
    states', actions' := states, actions;
    RunOk(l, states, actions, |actions|);
    RunEmptied(l, states, actions, |actions|);
    while !Quiet(states'[|actions'|])
      invariant Run(l, states', actions') && actions <= actions' && states <= states'
      invariant forall i :: |actions| <= i < |actions'| ==> actions'[i].EndOp? || actions'[i].Advance?
      invariant Inv(l, init, states'[|actions'|]) && Emptied(states'[|actions'|])
      invariant Logical(init, states'[|actions'|]) == Logical(init, states[|actions|])
      decreases Left(states'[|actions'|])
    {
      var s := states'[|actions'|];
      var a := NextToQuiet(l, init, s);
      Extend(l, states', actions', a);
      StepOk(l, init, s, a);
      StepEmptied(l, init, s, a);
      states', actions' := states' + [Do(l, s, a)], actions' + [a];
    }
    var t := states'[|actions'|];
    forall x | l.Home(init, x) ensures t.disk[x] == Logical(init, states[|actions|])[x] { QuietHolds(l, init, t, x); }
  }
}
