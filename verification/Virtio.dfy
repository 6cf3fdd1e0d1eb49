/** virtio_disk.c and its device: descriptors, the avail and used rings with their 16-bit
    indices, requests in flight, out-of-order completion and the interrupt handler, as
    interleaved steps.  The queue is the split virtqueue of section 2.6 of VIRTIO 1.1 and the
    requests are those of its section 5.2. */
module Virtio {
  import opened Common

  const NUM := 8
  const INDEX := 0x1_0000   // uint16
  const BSIZE := 1024

  type Block = seq<nat>

  // ----- Shared memory -----

  datatype Addr = Null | OpAddr(k: nat) | DataAddr(buf: nat) | StatusAddr(k: nat)

  /** `more` is VRING_DESC_F_NEXT and `write` is VRING_DESC_F_WRITE. */
  datatype Desc = Desc(addr: Addr, len: nat, more: bool, write: bool, next: nat)

  /** struct virtio_blk_req; `write` is VIRTIO_BLK_T_OUT. */
  datatype Op = Op(write: bool, sector: nat)

  datatype Info = Info(b: Option<nat>, status: nat)

  // ----- alloc_desc, alloc3_desc, free_desc and free_chain -----

  /** The first free descriptor from `i` on. */
  function FirstFree(free: seq<bool>, i: nat): Option<nat>
    decreases |free| - i
  {
    if i >= |free| then None else if free[i] then Some(i) else FirstFree(free, i + 1)
  }

  lemma {:induction false} FirstFreeIs(free: seq<bool>, i: nat)
    ensures var r := FirstFree(free, i);
      && (r.Some? ==> i <= r.value < |free| && free[r.value] && forall j :: i <= j < r.value ==> !free[j])
      && (r.None? ==> forall j :: i <= j < |free| ==> !free[j])
    decreases |free| - i
  {
    if i < |free| && !free[i] { FirstFreeIs(free, i + 1); }
  }

  datatype Alloc = Alloc(idx: seq<nat>, free: seq<bool>)

  /** alloc3_desc's loop, with `idx` allocated so far: on failure it frees those again. */
  function AllocFrom(idx: seq<nat>, free: seq<bool>): Alloc
    decreases 3 - |idx|
  {
    if |idx| >= 3 then Alloc(idx, free)
    else
      match FirstFree(free, 0)
      case None => Alloc([], Refree(idx, free))
      case Some(i) => if i < |free| then AllocFrom(idx + [i], free[i := false]) else Alloc([], free)
  }

  function Refree(idx: seq<nat>, free: seq<bool>): seq<bool> {
    if idx == [] then free
    else if idx[0] < |free| then Refree(idx[1..], free[idx[0] := true]) else free
  }

  predicate Taken(was: seq<bool>, idx: seq<nat>, free: seq<bool>) {
    && |free| == |was|
    && (forall k :: 0 <= k < |idx| ==> idx[k] < |was| && was[idx[k]])
    && (forall j, k :: 0 <= j < k < |idx| ==> idx[j] != idx[k])
    && forall d :: 0 <= d < |was| ==> free[d] == (was[d] && d !in idx)
  }

  lemma {:induction false} RefreeIs(idx: seq<nat>, free: seq<bool>)
    requires forall k :: 0 <= k < |idx| ==> idx[k] < |free|
    ensures var r := Refree(idx, free);
      |r| == |free| && forall d :: 0 <= d < |free| ==> r[d] == (free[d] || d in idx)
  {
    if idx != [] {
      RefreeIs(idx[1..], free[idx[0] := true]);
      assert idx == [idx[0]] + idx[1..];
    }
  }

  function Busy(free: seq<bool>): nat {
    if free == [] then 0 else Busy(free[1..]) + (if free[0] then 0 else 1)
  }

  lemma {:induction false} BusyUpdate(free: seq<bool>, i: nat)
    requires i < |free| && !free[i]
    ensures Busy(free[i := true]) == Busy(free) - 1
  {
    var f := free[i := true];
    if i == 0 {
      assert f[1..] == free[1..];
    } else {
      assert f[1..] == free[1..][i - 1 := true];
      BusyUpdate(free[1..], i - 1);
    }
  }

  lemma {:induction false} BusyAll(free: seq<bool>)
    ensures Busy(free) <= |free|
    ensures (forall d :: 0 <= d < |free| ==> !free[d]) ==> Busy(free) == |free|
  {
    if free != [] { BusyAll(free[1..]); }
  }

  /** alloc3_desc takes three different free descriptors, or it changes nothing because fewer
      are free. */
  lemma {:induction false} AllocIs(was: seq<bool>, idx: seq<nat>, free: seq<bool>)
    requires Taken(was, idx, free) && |idx| <= 3 && Busy(free) == Busy(was) + |idx|
    ensures var a := AllocFrom(idx, free);
      && (a.idx == [] || |a.idx| == 3) && (|a.idx| == 3 <==> |was| - Busy(was) >= 3)
      && (|a.idx| == 3 ==> Taken(was, a.idx, a.free))
      && (a.idx == [] ==> a.free == was)
    decreases 3 - |idx|
  {
    BusyAll(free);
    if |idx| < 3 {
      FirstFreeIs(free, 0);
      match FirstFree(free, 0)
      case None =>
        RefreeIs(idx, free);
        assert Refree(idx, free) == was;
      case Some(i) =>
        assert free[i := false][i := true] == free;
        BusyUpdate(free[i := false], i);
        AllocIs(was, idx + [i], free[i := false]);
    }
  }

  datatype Freed = Panic | Freed(desc: seq<Desc>, free: seq<bool>)

  const Cleared := Desc(Null, 0, false, false, 0)

  /** free_chain, with the two panics of free_desc. */
  function FreeChain(desc: seq<Desc>, free: seq<bool>, i: nat): Freed
    decreases Busy(free)
  {
    if i >= |desc| || i >= |free| || free[i] then Panic
    else
      var d := desc[i];
      BusyUpdate(free, i);
      var (desc', free') := (desc[i := Cleared], free[i := true]);
      if d.more then FreeChain(desc', free', d.next) else Freed(desc', free')
  }

  /** A chain of three used descriptors is freed without a panic. */
  lemma FreeThree(desc: seq<Desc>, free: seq<bool>, a: nat, b: nat, c: nat)
    requires |desc| == |free| && a < |free| && b < |free| && c < |free| && a != b && a != c && b != c
    requires !free[a] && !free[b] && !free[c]
    requires desc[a].more && desc[a].next == b && desc[b].more && desc[b].next == c && !desc[c].more
    ensures FreeChain(desc, free, a) ==
              Freed(desc[a := Cleared][b := Cleared][c := Cleared], free[a := true][b := true][c := true])
  {
    var d1, f1 := desc[a := Cleared], free[a := true];
    var d2, f2 := d1[b := Cleared], f1[b := true];
    assert FreeChain(d2, f2, c) == Freed(d2[c := Cleared], f2[c := true]);
    assert FreeChain(d1, f1, b) == FreeChain(d2, f2, c);
  }

  // ----- The machine -----

  datatype Phase = Formatted | Published | Fetched | Moved | Answered | Pushed | Used | Seen

  /** A request in flight, by its first descriptor.  `phase` and `was` (the block that is to
      be moved) are history. */
  datatype Req = Req(buf: nat, write: bool, sector: nat, i1: nat, i2: nat, phase: Phase, was: Block)

  /** How far the device is with it. */
  datatype Stage = Todo | Done | Told

  /** What the device has read from a chain. */
  datatype Job = Job(write: bool, sector: nat, buf: nat, status: nat, stage: Stage)

  /** The driver has `free`, `info`, `ops`, `seenIdx` (disk.used_idx) and the buffers' disk flags
      `flag`; both sides share `desc`, the rings and their indices; the device has `lastAvail`,
      `jobs` and `pushing`.  `lock` is the request that a thread is submitting.  `own`, the two
      queues and the counts `fetched` and `seen` are history. */
  datatype State = State(
    free: seq<bool>, desc: seq<Desc>, ops: seq<Op>, info: seq<Info>,
    ring: seq<nat>, availIdx: nat, uring: seq<nat>, usedIdx: nat, seenIdx: nat,
    flag: map<nat, bool>, data: map<nat, Block>, blocks: map<nat, Block>,
    reqs: seq<Option<Req>>, lock: Option<nat>,
    lastAvail: nat, jobs: seq<Option<Job>>, pushing: Option<nat>,
    own: seq<Option<nat>>, availQ: seq<nat>, usedQ: seq<nat>, fetched: nat, seen: nat)

  datatype Action =
    | Submit(buf: nat, write: bool, blockno: nat)  // virtio_disk_rw up to the ring entry
    | Publish                                      // avail->idx += 1
    | See                                          // one turn of virtio_disk_intr
    | Finish(h: nat)                               // the end of virtio_disk_rw
    | Edit(buf: nat, block: Block)                 // the buffer's owner changes it
    | Fetch                                        // the device takes the next avail entry
    | Move(h: nat)                                 // it moves the data
    | Answer(h: nat)                               // it writes the status
    | Push(h: nat)                                 // it fills in a used entry
    | Bump                                         // used->idx += 1

  /** No request in flight uses the buffer or the sector: the caller has the buffer's
      sleep-lock, and the cache has one buffer for a block. */
  predicate Idle(s: State, buf: nat, sector: nat) {
    forall h :: 0 <= h < |s.reqs| && s.reqs[h].Some? ==> s.reqs[h].value.buf != buf && s.reqs[h].value.sector != sector
  }

  function Decode(s: State, h: nat): Option<Job> {
    if h >= |s.desc| then None
    else
      var d0 := s.desc[h];
      if !d0.more || d0.next >= |s.desc| || !d0.addr.OpAddr? || d0.addr.k >= |s.ops| then None
      else
        var d1 := s.desc[d0.next];
        if !d1.more || d1.next >= |s.desc| || !d1.addr.DataAddr? || d1.len != BSIZE then None
        else
          var d2 := s.desc[d1.next];
          var op := s.ops[d0.addr.k];
          if d2.more || !d2.write || !d2.addr.StatusAddr? || d1.write == op.write then None
          else Some(Job(op.write, op.sector, d1.addr.buf, d2.addr.k, Todo))
  }

  predicate Sized(s: State) {
    && |s.free| == |s.desc| == |s.ops| == |s.info| == NUM && |s.ring| == |s.uring| == |s.reqs| == NUM
    && |s.jobs| == |s.own| == NUM && s.flag.Keys == s.data.Keys
  }

  ghost predicate Enabled(s: State, a: Action) {
    Sized(s) &&
    match a
    case Submit(buf, _, blockno) =>
      && s.lock.None? && buf in s.flag && blockno * 2 in s.blocks && Idle(s, buf, blockno * 2)
      && |AllocFrom([], s.free).idx| == 3
    case Publish => s.lock.Some?
    case See => s.lock.None? && s.seenIdx != s.usedIdx
    case Finish(h) =>
      && s.lock.None? && h < NUM && s.reqs[h].Some? && s.reqs[h].value.buf in s.flag && !s.flag[s.reqs[h].value.buf]
    case Edit(buf, _) =>
      buf in s.data && forall h :: 0 <= h < NUM && s.reqs[h].Some? ==> s.reqs[h].value.buf != buf
    case Fetch => s.lastAvail != s.availIdx
    case Move(h) => h < NUM && s.jobs[h].Some? && s.jobs[h].value.stage.Todo?
    case Answer(h) => h < NUM && s.jobs[h].Some? && s.jobs[h].value.stage.Done?
    case Push(h) => s.pushing.None? && h < NUM && s.jobs[h].Some? && s.jobs[h].value.stage.Told?
    case Bump => s.pushing.Some?
  }

  function Phased(s: State, h: nat, p: Phase): seq<Option<Req>>
    requires h < |s.reqs|
  {
    if s.reqs[h].Some? then s.reqs[h := Some(s.reqs[h].value.(phase := p))] else s.reqs
  }

  function DoSubmit(s: State, buf: nat, write: bool, sector: nat): State
    requires Sized(s) && buf in s.data && sector in s.blocks
    requires |AllocFrom([], s.free).idx| == 3
  {
    AllocIs(s.free, [], s.free);
    var a := AllocFrom([], s.free);
    var h, i1, i2 := a.idx[0], a.idx[1], a.idx[2];
    s.(free := a.free,
       ops := s.ops[h := Op(write, sector)],
       desc := s.desc[h := Desc(OpAddr(h), 16, true, false, i1)]
                     [i1 := Desc(DataAddr(buf), BSIZE, true, !write, i2)]
                     [i2 := Desc(StatusAddr(h), 1, false, true, 0)],
       info := s.info[h := Info(Some(buf), 0xff)],
       flag := s.flag[buf := true],
       ring := s.ring[s.availIdx % NUM := h],
       reqs := s.reqs[h := Some(Req(buf, write, sector, i1, i2, Formatted,
                                    if write then s.data[buf] else s.blocks[sector]))],
       own := s.own[h := Some(h)][i1 := Some(h)][i2 := Some(h)],
       lock := Some(h))
  }

  /** The fallbacks stand for a panic or a malformed chain; NoFailure shows that no run meets them. */
  ghost function Do(s: State, a: Action): State
    requires Enabled(s, a)
  {
    match a
    case Submit(buf, write, blockno) => DoSubmit(s, buf, write, blockno * 2)
    case Publish =>
      if s.lock.value >= NUM then s
      else s.(availIdx := (s.availIdx + 1) % INDEX, reqs := Phased(s, s.lock.value, Published), lock := None,
              availQ := s.availQ + [s.lock.value])
    case See =>
      var id := s.uring[s.seenIdx % NUM];
      if id >= NUM || s.info[id].status != 0 || s.info[id].b.None? || s.usedQ == [] then s
      else s.(flag := s.flag[s.info[id].b.value := false], data := s.data, seenIdx := (s.seenIdx + 1) % INDEX,
              reqs := Phased(s, id, Seen), usedQ := s.usedQ[1..], seen := s.seen + 1)
    case Finish(h) =>
      var r := s.reqs[h].value;
      var f := FreeChain(s.desc, s.free, h);
      if f.Panic? || r.i1 >= NUM || r.i2 >= NUM then s
      else s.(info := s.info[h := s.info[h].(b := None)], desc := f.desc, free := f.free, reqs := s.reqs[h := None],
              own := s.own[h := None][r.i1 := None][r.i2 := None])
    case Edit(buf, block) => s.(data := s.data[buf := block])
    case Fetch =>
      var h := s.ring[s.lastAvail % NUM];
      if h >= NUM || s.availQ == [] then s
      else s.(jobs := s.jobs[h := Decode(s, h)], lastAvail := (s.lastAvail + 1) % INDEX, reqs := Phased(s, h, Fetched),
              availQ := s.availQ[1..], fetched := s.fetched + 1)
    case Move(h) =>
      var j := s.jobs[h].value;
      if j.buf !in s.data || j.sector !in s.blocks then s
      else
        var t := s.(jobs := s.jobs[h := Some(j.(stage := Done))], reqs := Phased(s, h, Moved));
        if j.write then t.(blocks := s.blocks[j.sector := s.data[j.buf]])
        else t.(data := s.data[j.buf := s.blocks[j.sector]])
    case Answer(h) =>
      var k := s.jobs[h].value.status;
      if k >= NUM then s
      else s.(info := s.info[k := s.info[k].(status := 0)], reqs := Phased(s, h, Answered),
              jobs := s.jobs[h := Some(s.jobs[h].value.(stage := Told))])
    case Push(h) =>
      s.(uring := s.uring[s.usedIdx % NUM := h], pushing := Some(h), reqs := Phased(s, h, Pushed))
    case Bump =>
      if s.pushing.value >= NUM then s
      else s.(usedIdx := (s.usedIdx + 1) % INDEX, pushing := None, reqs := Phased(s, s.pushing.value, Used),
              jobs := s.jobs[s.pushing.value := None], usedQ := s.usedQ + [s.pushing.value])
  }

  ghost predicate Init(s: State) {
    && Sized(s)
    && (forall i :: 0 <= i < NUM ==> s.free[i] && s.reqs[i].None? && s.jobs[i].None? && s.own[i].None?)
    && s.availIdx == s.usedIdx == s.seenIdx == s.lastAvail == 0 && s.lock.None? && s.pushing.None?
    && s.availQ == [] && s.usedQ == [] && s.fetched == 0 && s.seen == 0
  }

  ghost predicate Run(states: seq<State>, actions: seq<Action>) {
    && |states| == |actions| + 1 && Init(states[0])
    && forall i :: 0 <= i < |actions| ==> Enabled(states[i], actions[i]) && states[i + 1] == Do(states[i], actions[i])
  }

  // ----- The invariant -----

  predicate Parts(r: Req, h: nat, d: nat) {
    d == h || d == r.i1 || d == r.i2
  }

  /** The three descriptors of a request are its own and say what it asks for. */
  predicate LayoutOk(s: State, h: nat) {
    h < NUM && |s.reqs| == NUM && s.reqs[h].Some? ==>
      && Sized(s)
      && var r := s.reqs[h].value;
      && r.i1 < NUM && r.i2 < NUM && h != r.i1 && h != r.i2 && r.i1 != r.i2
      && s.own[h] == Some(h) && s.own[r.i1] == Some(h) && s.own[r.i2] == Some(h)
      && s.desc[h] == Desc(OpAddr(h), 16, true, false, r.i1)
      && s.desc[r.i1] == Desc(DataAddr(r.buf), BSIZE, true, !r.write, r.i2)
      && s.desc[r.i2] == Desc(StatusAddr(h), 1, false, true, 0)
      && s.ops[h] == Op(r.write, r.sector) && s.info[h].b == Some(r.buf)
      && r.buf in s.flag && r.buf in s.data && r.sector in s.blocks
  }

  /** A descriptor is free, or it is part of one request. */
  predicate TagOk(s: State, d: nat) {
    d < NUM && Sized(s) ==>
      && (s.free[d] <==> s.own[d].None?)
      && (s.own[d].Some? ==>
            && s.own[d].value < NUM && s.reqs[s.own[d].value].Some?
            && Parts(s.reqs[s.own[d].value].value, s.own[d].value, d))
  }

  predicate InDevice(p: Phase) {
    p.Fetched? || p.Moved? || p.Answered? || p.Pushed?
  }

  function StageOf(p: Phase): Stage {
    if p.Fetched? then Todo else if p.Moved? then Done else Told
  }

  predicate Complete(p: Phase) {
    p.Answered? || p.Pushed? || p.Used? || p.Seen?
  }

  /** Where a request stands in the rings and with the device. */
  predicate PhaseOk(s: State, h: nat) {
    h < NUM && Sized(s) ==>
      if s.reqs[h].None? then
        h !in s.availQ && h !in s.usedQ && s.lock != Some(h) && s.pushing != Some(h) && s.jobs[h].None?
      else
        && var r := s.reqs[h].value;
        && (r.phase.Formatted? <==> s.lock == Some(h)) && (r.phase.Published? <==> h in s.availQ)
        && (r.phase.Pushed? <==> s.pushing == Some(h)) && (r.phase.Used? <==> h in s.usedQ)
        && s.jobs[h] == (if InDevice(r.phase) then Some(Job(r.write, r.sector, r.buf, h, StageOf(r.phase))) else None)
        && (Complete(r.phase) ==> s.info[h].status == 0)
        && r.buf in s.flag && (s.flag[r.buf] <==> !r.phase.Seen?)
  }

  predicate BeforeMove(p: Phase) {
    p.Formatted? || p.Published? || p.Fetched?
  }

  /** The block to be moved is at its source, and after the move at both ends. */
  predicate DataOk(s: State, h: nat) {
    h < NUM && |s.reqs| == NUM && s.reqs[h].Some? ==>
      && var r := s.reqs[h].value;
      && r.buf in s.data && r.sector in s.blocks
      && (r.write || !BeforeMove(r.phase) ==> s.data[r.buf] == r.was)
      && (!r.write || !BeforeMove(r.phase) ==> s.blocks[r.sector] == r.was)
  }

  predicate Apart(s: State, g: nat, h: nat) {
    g < NUM && h < NUM && g != h && |s.reqs| == NUM && s.reqs[g].Some? && s.reqs[h].Some? ==>
      s.reqs[g].value.buf != s.reqs[h].value.buf && s.reqs[g].value.sector != s.reqs[h].value.sector
  }

  function Cell(from: nat, i: nat): (c: nat)
    ensures c < NUM
  {
    (from + i) % NUM
  }

  predicate SlotAt(ring: seq<nat>, q: seq<nat>, from: nat, i: nat) {
    i < |q| && |ring| == NUM ==> ring[Cell(from, i)] == q[i]
  }

  /** Numbers of different descriptors. */
  predicate Heads(q: seq<nat>) {
    (forall i :: 0 <= i < |q| ==> q[i] < NUM) && forall i, j :: 0 <= i < j < |q| ==> q[i] != q[j]
  }

  /** A ring: `q` are the entries from count `from` on that the other side has not read. */
  ghost predicate RingOk(ring: seq<nat>, q: seq<nat>, from: nat, read: nat, written: nat, next: Option<nat>) {
    && Heads(q) && read == from % INDEX && written == (from + |q|) % INDEX
    && (forall i: nat :: SlotAt(ring, q, from, i))
    && (next.Some? ==> next.value < NUM && next.value !in q && |ring| == NUM && ring[Cell(from, |q|)] == next.value)
  }

  ghost predicate Inv(s: State) {
    && Sized(s)
    && (forall h: nat :: LayoutOk(s, h))
    && (forall d: nat :: TagOk(s, d))
    && (forall h: nat :: PhaseOk(s, h))
    && (forall h: nat :: DataOk(s, h))
    && (forall g: nat, h: nat :: Apart(s, g, h))
    && RingOk(s.ring, s.availQ, s.fetched, s.lastAvail, s.availIdx, s.lock)
    && RingOk(s.uring, s.usedQ, s.seen, s.seenIdx, s.usedIdx, s.pushing)
  }

  // ----- Rings -----

  /** A ring never holds more unread entries than it has slots. */
  lemma {:induction false} Pigeons(q: seq<nat>, n: nat)
    requires (forall i :: 0 <= i < |q| ==> q[i] < n) && forall i, j :: 0 <= i < j < |q| ==> q[i] != q[j]
    ensures |q| <= n
  {
    if q != [] {
      assert q[0] < n;
      if n - 1 in q {
        var k :| 0 <= k < |q| && q[k] == n - 1;
        var p := q[..k] + q[k + 1..];
        forall i | 0 <= i < |p| ensures p[i] < n - 1 { assert p[i] == q[if i < k then i else i + 1]; }
        Pigeons(p, n - 1);
      } else {
        Pigeons(q, n - 1);
      }
    }
  }

  lemma RoomFor(q: seq<nat>, h: nat)
    requires Heads(q) && h < NUM && h !in q
    ensures |q| < NUM
  {
    Pigeons(q + [h], NUM);
  }

  lemma OtherCell(from: nat, i: nat, j: nat)
    requires i < j < i + NUM
    ensures Cell(from, i) != Cell(from, j)
  {
  }

  /** A 16-bit index names the same slot as the count that it stands for. */
  lemma SameCell(count: nat, i: nat)
    ensures ((count + i) % INDEX) % NUM == Cell(count, i)
  {
  }

  /** Writing the next entry overwrites no unread one. */
  lemma WriteEntry(ring: seq<nat>, q: seq<nat>, from: nat, read: nat, written: nat, h: nat)
    requires RingOk(ring, q, from, read, written, None) && h < NUM && h !in q && |ring| == NUM
    ensures |q| < NUM && RingOk(ring[written % NUM := h], q, from, read, written, Some(h))
  {
    RoomFor(q, h);
    SameCell(from, |q|);
    var r := ring[written % NUM := h];
    forall i: nat ensures SlotAt(r, q, from, i) {
      assert SlotAt(ring, q, from, i);
      if i < |q| { OtherCell(from, i, |q|); }
    }
  }

  lemma PublishEntry(ring: seq<nat>, q: seq<nat>, from: nat, read: nat, written: nat, h: nat)
    requires RingOk(ring, q, from, read, written, Some(h))
    ensures RingOk(ring, q + [h], from, read, (written + 1) % INDEX, None)
  {
    forall i: nat ensures SlotAt(ring, q + [h], from, i) { assert SlotAt(ring, q, from, i); }
  }

  lemma IndexTest(from: nat, n: nat)
    requires n <= NUM
    ensures from % INDEX != (from + n) % INDEX <==> n > 0
  {
  }

  lemma IndexNext(from: nat)
    ensures (from % INDEX + 1) % INDEX == (from + 1) % INDEX
  {
  }

  /** The indices differ exactly when there is an entry to read, wrapped around or not, and
      it is the oldest. */
  lemma ReadEntry(ring: seq<nat>, q: seq<nat>, from: nat, read: nat, written: nat, next: Option<nat>)
    requires RingOk(ring, q, from, read, written, next) && |ring| == NUM
    ensures read != written <==> q != []
    ensures q != [] ==> ring[read % NUM] == q[0]
    ensures q != [] ==> RingOk(ring, q[1..], from + 1, (read + 1) % INDEX, written, next)
  {
    Pigeons(q, NUM);
    IndexTest(from, |q|);
    if q != [] {
      SameCell(from, 0);
      IndexNext(from);
      assert SlotAt(ring, q, from, 0);
      NextFrom(ring, q, from, q[1..], from + 1);
      assert from + 1 + |q[1..]| == from + |q|;
    }
  }

  lemma NextFrom(ring: seq<nat>, q: seq<nat>, from: nat, rest: seq<nat>, after: nat)
    requires q != [] && rest == q[1..] && after == from + 1 && forall i: nat :: SlotAt(ring, q, from, i)
    ensures forall i: nat :: SlotAt(ring, rest, after, i)
  {
    forall i: nat ensures SlotAt(ring, rest, after, i) {
      assert SlotAt(ring, q, from, i + 1);
      assert Cell(after, i) == Cell(from, i + 1);
    }
  }

  // ----- Every step keeps the invariant -----

  lemma DecodeIs(s: State, h: nat)
    requires LayoutOk(s, h) && h < NUM && |s.reqs| == NUM && s.reqs[h].Some?
    ensures var r := s.reqs[h].value; Decode(s, h) == Some(Job(r.write, r.sector, r.buf, h, Todo))
  {
  }

  /** Steps that move one request on leave the layout, the tags and the distinctness alone. */
  predicate SameLayout(s: State, t: State) {
    && t.free == s.free && t.desc == s.desc && t.ops == s.ops && t.own == s.own
    && t.flag.Keys == s.flag.Keys && t.data.Keys == s.data.Keys && t.blocks.Keys == s.blocks.Keys
    && |t.ring| == |s.ring| && |t.uring| == |s.uring| && |t.jobs| == |s.jobs|
    && |t.reqs| == |s.reqs| && |t.info| == |s.info|
    && (forall h :: 0 <= h < |s.info| ==> t.info[h].b == s.info[h].b)
    && forall h :: 0 <= h < |s.reqs| ==>
         (s.reqs[h].None? ==> t.reqs[h].None?) &&
         (s.reqs[h].Some? ==> t.reqs[h].Some? && t.reqs[h].value == s.reqs[h].value.(phase := t.reqs[h].value.phase))
  }

  lemma SameLayoutInv(s: State, t: State)
    requires Inv(s) && SameLayout(s, t)
    ensures Sized(t)
    ensures forall h: nat :: LayoutOk(t, h)
    ensures forall d: nat :: TagOk(t, d)
    ensures forall g: nat, h: nat :: Apart(t, g, h)
  {
    forall h: nat ensures LayoutOk(t, h) { assert LayoutOk(s, h); }
    forall d: nat ensures TagOk(t, d) { assert TagOk(s, d); }
    forall g: nat, h: nat ensures Apart(t, g, h) { assert Apart(s, g, h); }
  }

  lemma PublishInv(s: State)
    requires Inv(s) && Enabled(s, Publish)
    ensures Inv(Do(s, Publish))
  {
    var t, h := Do(s, Publish), s.lock.value;
    assert PhaseOk(s, h);
    SameLayoutInv(s, t);
    PublishEntry(s.ring, s.availQ, s.fetched, s.lastAvail, s.availIdx, h);
    forall g: nat ensures PhaseOk(t, g) { assert PhaseOk(s, g); }
    forall g: nat ensures DataOk(t, g) { assert DataOk(s, g); }
  }

  lemma FetchInv(s: State)
    requires Inv(s) && Enabled(s, Fetch)
    ensures Inv(Do(s, Fetch)) && s.availQ != []
  {
    ReadEntry(s.ring, s.availQ, s.fetched, s.lastAvail, s.availIdx, s.lock);
    var t, h := Do(s, Fetch), s.availQ[0];
    assert PhaseOk(s, h) && LayoutOk(s, h);
    DecodeIs(s, h);
    SameLayoutInv(s, t);
    forall g: nat ensures PhaseOk(t, g) {
      assert PhaseOk(s, g);
      Rest(s.availQ, g);
    }
    forall g: nat ensures DataOk(t, g) { assert DataOk(s, g); }
  }

  lemma Rest(q: seq<nat>, g: nat)
    requires Heads(q) && q != []
    ensures g in q[1..] <==> g in q && g != q[0]
  {
    assert q == [q[0]] + q[1..];
  }

  lemma MovePhase(s: State, h: nat, g: nat)
    requires Inv(s) && Enabled(s, Move(h))
    ensures PhaseOk(Do(s, Move(h)), g)
  {
    assert PhaseOk(s, h) && LayoutOk(s, h) && PhaseOk(s, g);
  }

  lemma MoveData(s: State, h: nat, g: nat)
    requires Inv(s) && Enabled(s, Move(h))
    ensures DataOk(Do(s, Move(h)), g)
  {
    assert PhaseOk(s, h) && LayoutOk(s, h) && DataOk(s, h) && DataOk(s, g) && Apart(s, g, h);
  }

  lemma MoveInv(s: State, h: nat)
    requires Inv(s) && Enabled(s, Move(h))
    ensures Inv(Do(s, Move(h)))
  {
    var t := Do(s, Move(h));
    assert PhaseOk(s, h) && LayoutOk(s, h);
    SameLayoutInv(s, t);
    forall g: nat ensures PhaseOk(t, g) { MovePhase(s, h, g); }
    forall g: nat ensures DataOk(t, g) { MoveData(s, h, g); }
  }

  lemma AnswerInv(s: State, h: nat)
    requires Inv(s) && Enabled(s, Answer(h))
    ensures Inv(Do(s, Answer(h)))
  {
    var t := Do(s, Answer(h));
    assert PhaseOk(s, h);
    SameLayoutInv(s, t);
    forall g: nat ensures PhaseOk(t, g) { assert PhaseOk(s, g); }
    forall g: nat ensures DataOk(t, g) { assert DataOk(s, g); }
  }

  lemma PushInv(s: State, h: nat)
    requires Inv(s) && Enabled(s, Push(h))
    ensures Inv(Do(s, Push(h)))
  {
    var t := Do(s, Push(h));
    assert PhaseOk(s, h);
    WriteEntry(s.uring, s.usedQ, s.seen, s.seenIdx, s.usedIdx, h);
    SameLayoutInv(s, t);
    forall g: nat ensures PhaseOk(t, g) { assert PhaseOk(s, g); }
    forall g: nat ensures DataOk(t, g) { assert DataOk(s, g); }
  }

  lemma BumpInv(s: State)
    requires Inv(s) && Enabled(s, Bump)
    ensures Inv(Do(s, Bump))
  {
    var t, h := Do(s, Bump), s.pushing.value;
    assert PhaseOk(s, h);
    SameLayoutInv(s, t);
    PublishEntry(s.uring, s.usedQ, s.seen, s.seenIdx, s.usedIdx, h);
    forall g: nat ensures PhaseOk(t, g) { assert PhaseOk(s, g); }
    forall g: nat ensures DataOk(t, g) { assert DataOk(s, g); }
  }

  lemma SeeInv(s: State)
    requires Inv(s) && Enabled(s, See)
    ensures Inv(Do(s, See)) && s.usedQ != []
  {
    ReadEntry(s.uring, s.usedQ, s.seen, s.seenIdx, s.usedIdx, s.pushing);
    var t, h := Do(s, See), s.usedQ[0];
    assert PhaseOk(s, h) && LayoutOk(s, h);
    SameLayoutInv(s, t);
    forall g: nat ensures PhaseOk(t, g) {
      assert PhaseOk(s, g) && Apart(s, g, h);
      Rest(s.usedQ, g);
    }
    forall g: nat ensures DataOk(t, g) { assert DataOk(s, g); }
  }

  lemma EditInv(s: State, buf: nat, block: Block)
    requires Inv(s) && Enabled(s, Edit(buf, block))
    ensures Inv(Do(s, Edit(buf, block)))
  {
    var t := Do(s, Edit(buf, block));
    SameLayoutInv(s, t);
    forall g: nat ensures PhaseOk(t, g) { assert PhaseOk(s, g); }
    forall g: nat ensures DataOk(t, g) { assert DataOk(s, g); }
  }

  /** What Submit has taken from the free descriptors. */
  lemma SubmitTakes(s: State, buf: nat, write: bool, blockno: nat)
    requires Inv(s) && Enabled(s, Submit(buf, write, blockno))
    ensures var idx := AllocFrom([], s.free).idx;
      && Taken(s.free, idx, AllocFrom([], s.free).free) && |idx| == 3 && idx[0] < NUM && idx[1] < NUM && idx[2] < NUM
      && idx[0] != idx[1] && idx[0] != idx[2] && idx[1] != idx[2]
      && s.own[idx[0]].None? && s.own[idx[1]].None? && s.own[idx[2]].None? && s.reqs[idx[0]].None?
  {
    AllocIs(s.free, [], s.free);
    var idx := AllocFrom([], s.free).idx;
    assert TagOk(s, idx[0]) && TagOk(s, idx[1]) && TagOk(s, idx[2]) && LayoutOk(s, idx[0]);
  }

  lemma SubmitLayout(s: State, buf: nat, write: bool, blockno: nat, h: nat)
    requires Inv(s) && Enabled(s, Submit(buf, write, blockno))
    ensures LayoutOk(Do(s, Submit(buf, write, blockno)), h)
  {
    SubmitTakes(s, buf, write, blockno);
    assert LayoutOk(s, h);
  }

  lemma SubmitTag(s: State, buf: nat, write: bool, blockno: nat, d: nat)
    requires Inv(s) && Enabled(s, Submit(buf, write, blockno))
    ensures TagOk(Do(s, Submit(buf, write, blockno)), d)
  {
    SubmitTakes(s, buf, write, blockno);
    var idx := AllocFrom([], s.free).idx;
    assert d in idx <==> d == idx[0] || d == idx[1] || d == idx[2];
    assert TagOk(s, d);
  }

  lemma SubmitInv(s: State, buf: nat, write: bool, blockno: nat)
    requires Inv(s) && Enabled(s, Submit(buf, write, blockno))
    ensures Inv(Do(s, Submit(buf, write, blockno)))
  {
    var t, h := Do(s, Submit(buf, write, blockno)), AllocFrom([], s.free).idx[0];
    SubmitTakes(s, buf, write, blockno);
    assert PhaseOk(s, h);
    WriteEntry(s.ring, s.availQ, s.fetched, s.lastAvail, s.availIdx, h);
    forall g: nat ensures LayoutOk(t, g) { SubmitLayout(s, buf, write, blockno, g); }
    forall d: nat ensures TagOk(t, d) { SubmitTag(s, buf, write, blockno, d); }
    forall g: nat ensures PhaseOk(t, g) { assert PhaseOk(s, g); }
    forall g: nat ensures DataOk(t, g) { assert DataOk(s, g); }
    forall f: nat, g: nat ensures Apart(t, f, g) { assert Apart(s, f, g); }
  }

  lemma FinishFrees(s: State, h: nat)
    requires Inv(s) && Enabled(s, Finish(h))
    ensures var r := s.reqs[h].value;
      && r.phase.Seen? && r.i1 < NUM && r.i2 < NUM
      && FreeChain(s.desc, s.free, h) ==
           Freed(s.desc[h := Cleared][r.i1 := Cleared][r.i2 := Cleared], s.free[h := true][r.i1 := true][r.i2 := true])
  {
    var r := s.reqs[h].value;
    assert LayoutOk(s, h) && PhaseOk(s, h) && TagOk(s, h) && TagOk(s, r.i1) && TagOk(s, r.i2);
    FreeThree(s.desc, s.free, h, r.i1, r.i2);
  }

  lemma FinishLayout(s: State, h: nat, g: nat)
    requires Inv(s) && Enabled(s, Finish(h))
    ensures LayoutOk(Do(s, Finish(h)), g)
  {
    FinishFrees(s, h);
    assert LayoutOk(s, g) && LayoutOk(s, h);
  }

  lemma FinishTag(s: State, h: nat, d: nat)
    requires Inv(s) && Enabled(s, Finish(h))
    ensures TagOk(Do(s, Finish(h)), d)
  {
    FinishFrees(s, h);
    assert TagOk(s, d) && LayoutOk(s, h);
  }

  lemma FinishInv(s: State, h: nat)
    requires Inv(s) && Enabled(s, Finish(h))
    ensures Inv(Do(s, Finish(h)))
  {
    var t := Do(s, Finish(h));
    FinishFrees(s, h);
    assert PhaseOk(s, h);
    forall g: nat ensures LayoutOk(t, g) { FinishLayout(s, h, g); }
    forall d: nat ensures TagOk(t, d) { FinishTag(s, h, d); }
    forall g: nat ensures PhaseOk(t, g) { assert PhaseOk(s, g); }
    forall g: nat ensures DataOk(t, g) { assert DataOk(s, g); }
    forall f: nat, g: nat ensures Apart(t, f, g) { assert Apart(s, f, g); }
  }

  lemma InitInv(s: State)
    requires Init(s)
    ensures Inv(s)
  {
  }

  lemma StepInv(s: State, a: Action)
    requires Inv(s) && Enabled(s, a)
    ensures Inv(Do(s, a))
  {
    match a
    case Submit(buf, write, blockno) => SubmitInv(s, buf, write, blockno);
    case Publish => PublishInv(s);
    case See => SeeInv(s);
    case Finish(h) => FinishInv(s, h);
    case Edit(buf, block) => EditInv(s, buf, block);
    case Fetch => FetchInv(s);
    case Move(h) => MoveInv(s, h);
    case Answer(h) => AnswerInv(s, h);
    case Push(h) => PushInv(s, h);
    case Bump => BumpInv(s);
  }

  lemma {:induction false} RunInv(states: seq<State>, actions: seq<Action>, i: nat)
    requires Run(states, actions) && i < |states|
    ensures Inv(states[i])
  {
    if i == 0 {
      InitInv(states[0]);
    } else {
      RunInv(states, actions, i - 1);
      StepInv(states[i - 1], actions[i - 1]);
    }
  }

  // ----- The theorems -----

  /** Descriptors: the chains of two requests never share one, and every descriptor is free
      or in exactly one chain. */
  lemma ChainsAreDisjoint(states: seq<State>, actions: seq<Action>, i: nat, d: nat)
    requires Run(states, actions) && i < |states| && d < NUM
    ensures Sized(states[i])
    ensures var s := states[i];
      && (s.free[d] <==> !exists h :: 0 <= h < NUM && InChain(s, h, d))
      && forall g, h :: 0 <= g < NUM && 0 <= h < NUM && InChain(s, g, d) && InChain(s, h, d) ==> g == h
  {
    RunInv(states, actions, i);
    var s := states[i];
    assert TagOk(s, d);
    if !s.free[d] { assert InChain(s, s.own[d].value, d); }
    forall h | 0 <= h < NUM && InChain(s, h, d) ensures s.own[d] == Some(h) { assert LayoutOk(s, h); }
  }

  predicate InChain(s: State, h: nat, d: nat) {
    h < |s.reqs| && s.reqs[h].Some? && Parts(s.reqs[h].value, h, d)
  }

  function InFlight(s: State, n: nat): nat
    requires n <= |s.reqs|
  {
    if n == 0 then 0 else InFlight(s, n - 1) + (if s.reqs[n - 1].Some? then 1 else 0)
  }

  ghost function UsedBelow(own: seq<Option<nat>>, n: nat): set<nat> {
    set d: nat | d < |own| && own[d].Some? && own[d].value < n
  }

  ghost function FreeSet(s: State): set<nat>
    requires |s.free| == NUM
  {
    set d: nat | d < |s.free| && s.free[d]
  }

  /** The descriptors of a request are those that are tagged with it. */
  predicate Tagged(s: State, h: nat, d: nat) {
    h < |s.reqs| && d < NUM && d < |s.own| ==>
      (s.own[d] == Some(h) <==> s.reqs[h].Some? && Parts(s.reqs[h].value, h, d))
  }

  lemma AllTagged(s: State, h: nat, d: nat)
    requires Inv(s)
    ensures Tagged(s, h, d)
  {
    assert LayoutOk(s, h) && TagOk(s, d);
  }

  lemma ThreeMore(own: seq<Option<nat>>, h: nat, next: nat, a: nat, b: nat, c: nat)
    requires a < |own| && b < |own| && c < |own| && a != b && a != c && b != c && next == h + 1
    requires own[a] == own[b] == own[c] == Some(h)
    requires forall d :: 0 <= d < |own| && own[d] == Some(h) ==> d == a || d == b || d == c
    ensures |UsedBelow(own, next)| == |UsedBelow(own, h)| + 3
  {
    var less, more := UsedBelow(own, h), UsedBelow(own, next);
    assert a !in less && b !in less && c !in less;
    assert more == less + {a} + {b} + {c};
  }

  lemma NoneMore(own: seq<Option<nat>>, h: nat, next: nat)
    requires next == h + 1 && forall d :: 0 <= d < |own| ==> own[d] != Some(h)
    ensures UsedBelow(own, next) == UsedBelow(own, h)
  {
  }

  lemma UsedNext(s: State, h: nat, next: nat)
    requires Sized(s) && h < NUM && next == h + 1 && LayoutOk(s, h) && forall d: nat :: Tagged(s, h, d)
    ensures |UsedBelow(s.own, next)| == |UsedBelow(s.own, h)| + (if s.reqs[h].Some? then 3 else 0)
  {
    if s.reqs[h].Some? {
      var r := s.reqs[h].value;
      forall d | 0 <= d < NUM && s.own[d] == Some(h) ensures Parts(r, h, d) { assert Tagged(s, h, d); }
      ThreeMore(s.own, h, next, h, r.i1, r.i2);
    } else {
      forall d | 0 <= d < NUM ensures s.own[d] != Some(h) { assert Tagged(s, h, d); }
      NoneMore(s.own, h, next);
    }
  }

  lemma {:induction false} UsedCount(s: State, n: nat)
    requires Sized(s) && n <= NUM && (forall h: nat :: LayoutOk(s, h)) && forall h: nat, d: nat :: Tagged(s, h, d)
    ensures |UsedBelow(s.own, n)| == 3 * InFlight(s, n)
  {
    if n == 0 {
      assert UsedBelow(s.own, 0) == {};
    } else {
      UsedCount(s, n - 1);
      UsedNext(s, n - 1, n);
    }
  }

  lemma CountAll(s: State)
    requires Sized(s) && forall d: nat :: TagOk(s, d)
    ensures |FreeSet(s)| + |UsedBelow(s.own, NUM)| == NUM
  {
    forall d: nat | d < NUM ensures d in FreeSet(s) <==> d !in UsedBelow(s.own, NUM) { assert TagOk(s, d); }
    assert Upto(|s.own|) == FreeSet(s) + UsedBelow(s.own, NUM);
  }

  function Upto(n: nat): (s: set<nat>)
    ensures |s| == n && forall d: nat :: d in s <==> d < n
  {
    if n == 0 then {} else Upto(n - 1) + {n - 1}
  }

  /** The free descriptors and three for each request in flight are all of them. */
  lemma Conservation(states: seq<State>, actions: seq<Action>, i: nat)
    requires Run(states, actions) && i < |states|
    ensures |states[i].free| == |states[i].reqs| == NUM
    ensures |FreeSet(states[i])| + 3 * InFlight(states[i], NUM) == NUM
  {
    RunInv(states, actions, i);
    var s := states[i];
    forall h: nat, d: nat ensures Tagged(s, h, d) { AllTagged(s, h, d); }
    UsedCount(s, NUM);
    CountAll(s);
  }

  /** The head of the chain that Submit takes. */
  function Head(s: State): nat {
    var a := AllocFrom([], s.free);
    if a.idx == [] then 0 else a.idx[0]
  }

  /** No ring slot is overwritten before the other side has read it. */
  lemma NoOverwrite(states: seq<State>, actions: seq<Action>, i: nat, k: nat)
    requires Run(states, actions) && i < |actions|
    ensures var s := states[i];
      && Sized(s)
      && (actions[i].Submit? && k < |s.availQ| ==> Cell(s.fetched, k) != s.availIdx % NUM)
      && (actions[i].Push? && k < |s.usedQ| ==> Cell(s.seen, k) != s.usedIdx % NUM)
  {
    RunInv(states, actions, i);
    var s := states[i];
    match actions[i]
    case Submit(buf, write, blockno) =>
      SubmitTakes(s, buf, write, blockno);
      assert PhaseOk(s, Head(s));
      RoomFor(s.availQ, Head(s));
      SameCell(s.fetched, |s.availQ|);
      if k < |s.availQ| { OtherCell(s.fetched, k, |s.availQ|); }
    case Push(h) =>
      assert PhaseOk(s, h);
      RoomFor(s.usedQ, h);
      SameCell(s.seen, |s.usedQ|);
      if k < |s.usedQ| { OtherCell(s.seen, k, |s.usedQ|); }
    case _ =>
  }

  /** Wrapped around or not, either side's index test says whether there is an unread entry,
      and the slot that it then reads has the oldest one. */
  lemma IndicesWrap(states: seq<State>, actions: seq<Action>, i: nat)
    requires Run(states, actions) && i < |states|
    ensures var s := states[i];
      && Sized(s)
      && (s.lastAvail != s.availIdx <==> s.availQ != [])
      && (s.seenIdx != s.usedIdx <==> s.usedQ != [])
      && (s.availQ != [] ==> s.ring[s.lastAvail % NUM] == s.availQ[0])
      && (s.usedQ != [] ==> s.uring[s.seenIdx % NUM] == s.usedQ[0])
  {
    RunInv(states, actions, i);
    var s := states[i];
    ReadEntry(s.ring, s.availQ, s.fetched, s.lastAvail, s.availIdx, s.lock);
    ReadEntry(s.uring, s.usedQ, s.seen, s.seenIdx, s.usedIdx, s.pushing);
  }

  /** The interrupt handler never panics, and a completion clears the flag of exactly the
      buffer whose request the device has completed. */
  lemma CompletionIsItsOwn(states: seq<State>, actions: seq<Action>, i: nat)
    requires Run(states, actions) && i < |actions| && actions[i].See?
    ensures var s := states[i];
      && Sized(s)
      && var id := s.uring[s.seenIdx % NUM];
      && id < NUM && s.info[id].status == 0 && s.reqs[id].Some? && s.reqs[id].value.phase.Used?
      && states[i + 1].flag == s.flag[s.reqs[id].value.buf := false]
  {
    RunInv(states, actions, i);
    IndicesWrap(states, actions, i);
    var s := states[i];
    var id := s.usedQ[0];
    assert PhaseOk(s, id) && LayoutOk(s, id);
  }

  /** Neither panic of free_desc is reachable: a thread that finds its flag cleared frees
      its three descriptors and no others. */
  lemma FinishNeverPanics(states: seq<State>, actions: seq<Action>, i: nat, h: nat)
    requires Run(states, actions) && i < |actions| && actions[i] == Finish(h)
    ensures var s := states[i];
      && Sized(s) && h < NUM && s.reqs[h].Some?
      && FreeChain(s.desc, s.free, h).Freed? && Sized(states[i + 1])
      && forall d :: 0 <= d < NUM ==> states[i + 1].free[d] == (s.free[d] || Parts(s.reqs[h].value, h, d))
  {
    RunInv(states, actions, i);
    FinishFrees(states[i], h);
  }

  lemma DeviceReadsTheRequest(states: seq<State>, actions: seq<Action>, i: nat)
    requires Run(states, actions) && i < |actions| && actions[i].Fetch?
    ensures var s := states[i];
      && Sized(s)
      && var h := s.ring[s.lastAvail % NUM];
      && h < NUM && s.reqs[h].Some?
      && var r := s.reqs[h].value; Decode(s, h) == Some(Job(r.write, r.sector, r.buf, h, Todo))
  {
    RunInv(states, actions, i);
    IndicesWrap(states, actions, i);
    var s := states[i];
    var h := s.availQ[0];
    assert PhaseOk(s, h) && LayoutOk(s, h);
    DecodeIs(s, h);
  }

  /** A request stays what it was until it is finished. */
  predicate SameRequest(s: State, t: State, h: nat) {
    h < |s.reqs| == |t.reqs| && s.reqs[h].Some? && t.reqs[h].Some? &&
    t.reqs[h].value == s.reqs[h].value.(phase := t.reqs[h].value.phase)
  }

  lemma OtherKeepsRequest(s: State, a: Action, h: nat)
    requires Enabled(s, a) && !a.Submit? && a != Finish(h) && h < NUM && s.reqs[h].Some?
    ensures SameRequest(s, Do(s, a), h)
  {
  }

  lemma StepKeepsRequest(s: State, a: Action, h: nat)
    requires Inv(s) && Enabled(s, a) && a != Finish(h) && h < NUM && s.reqs[h].Some?
    ensures SameRequest(s, Do(s, a), h)
  {
    if a.Submit? {
      SubmitTakes(s, a.buf, a.write, a.blockno);
    } else {
      OtherKeepsRequest(s, a, h);
    }
  }

  lemma {:induction false} RequestStays(states: seq<State>, actions: seq<Action>, i: nat, j: nat, h: nat)
    requires Run(states, actions) && i <= j < |states| && h < NUM
    requires |states[i].reqs| == NUM && states[i].reqs[h].Some?
    requires forall k :: i <= k < j ==> actions[k] != Finish(h)
    ensures SameRequest(states[i], states[j], h)
  {
    if i < j {
      RequestStays(states, actions, i, j - 1, h);
      RunInv(states, actions, j - 1);
      StepKeepsRequest(states[j - 1], actions[j - 1], h);
    }
  }

  /** virtio_disk_rw is a synchronous transfer, whatever else is in flight: when it ends, the
      buffer and the disk block are equal, and equal to what the buffer (for a write) or the
      disk block (for a read) was when it began. */
  lemma TransferIsSynchronous(states: seq<State>, actions: seq<Action>, i: nat, j: nat, buf: nat, write: bool,
                              blockno: nat)
    requires Run(states, actions) && i < j < |actions| && actions[i] == Submit(buf, write, blockno)
    requires actions[j] == Finish(Head(states[i])) && forall k :: i < k < j ==> actions[k] != actions[j]
    ensures var s, t := states[i], states[j];
      && buf in s.data && blockno * 2 in s.blocks && buf in t.data && blockno * 2 in t.blocks
      && t.data[buf] == t.blocks[blockno * 2] == if write then s.data[buf] else s.blocks[blockno * 2]
  {
    RunInv(states, actions, i);
    SubmitTakes(states[i], buf, write, blockno);
    var h := Head(states[i]);
    RequestStays(states, actions, i + 1, j, h);
    RunInv(states, actions, j);
    FinishFrees(states[j], h);
    assert DataOk(states[j], h);
  }

  // ----- Every request can be completed -----

  function Togo(r: Option<Req>): nat {
    if r.None? then 0
    else
      match r.value.phase
      case Formatted => 8
      case Published => 7
      case Fetched => 6
      case Moved => 5
      case Answered => 4
      case Pushed => 3
      case Used => 2
      case Seen => 1
  }

  /** How many steps the requests in flight need. */
  function Left(reqs: seq<Option<Req>>): nat {
    if reqs == [] then 0 else Togo(reqs[0]) + Left(reqs[1..])
  }

  lemma {:induction false} LeftUpdate(reqs: seq<Option<Req>>, h: nat, r: Option<Req>)
    requires h < |reqs|
    ensures Left(reqs[h := r]) == Left(reqs) - Togo(reqs[h]) + Togo(r)
  {
    if h == 0 {
      assert reqs[h := r][1..] == reqs[1..];
    } else {
      assert reqs[h := r][1..] == reqs[1..][h - 1 := r];
      LeftUpdate(reqs[1..], h - 1, r);
    }
  }

  lemma {:induction false} LeftSome(reqs: seq<Option<Req>>) returns (h: nat)
    requires Left(reqs) > 0
    ensures h < |reqs| && reqs[h].Some?
  {
    if reqs[0].Some? {
      h := 0;
    } else {
      h := LeftSome(reqs[1..]);
      h := h + 1;
    }
  }

  lemma {:induction false} LeftNone(reqs: seq<Option<Req>>)
    requires Left(reqs) == 0
    ensures forall h :: 0 <= h < |reqs| ==> reqs[h].None?
  {
    if reqs != [] { LeftNone(reqs[1..]); }
  }

  lemma Turns(s: State, a: Action, h: nat)
    requires Enabled(s, a) && !a.Submit? && h < NUM && Do(s, a).reqs == s.reqs[h := Do(s, a).reqs[h]]
    requires Togo(Do(s, a).reqs[h]) < Togo(s.reqs[h])
    ensures Left(Do(s, a).reqs) < Left(s.reqs)
  {
    LeftUpdate(s.reqs, h, Do(s, a).reqs[h]);
  }

  lemma PublishTurns(s: State)
    requires Inv(s) && s.lock.Some?
    ensures Enabled(s, Publish) && Left(Do(s, Publish).reqs) < Left(s.reqs)
  {
    assert PhaseOk(s, s.lock.value);
    Turns(s, Publish, s.lock.value);
  }

  lemma BumpTurns(s: State)
    requires Inv(s) && s.pushing.Some?
    ensures Enabled(s, Bump) && Left(Do(s, Bump).reqs) < Left(s.reqs)
  {
    assert PhaseOk(s, s.pushing.value);
    Turns(s, Bump, s.pushing.value);
  }

  lemma FetchTurns(s: State)
    requires Inv(s) && s.availQ != []
    ensures Enabled(s, Fetch) && Left(Do(s, Fetch).reqs) < Left(s.reqs)
  {
    ReadEntry(s.ring, s.availQ, s.fetched, s.lastAvail, s.availIdx, s.lock);
    assert PhaseOk(s, s.availQ[0]);
    Turns(s, Fetch, s.availQ[0]);
  }

  lemma SeeTurns(s: State)
    requires Inv(s) && s.lock.None? && s.usedQ != []
    ensures Enabled(s, See) && Left(Do(s, See).reqs) < Left(s.reqs)
  {
    ReadEntry(s.uring, s.usedQ, s.seen, s.seenIdx, s.usedIdx, s.pushing);
    var h := s.usedQ[0];
    assert PhaseOk(s, h) && LayoutOk(s, h);
    Turns(s, See, h);
  }

  /** What request `h` needs next, from the device or from its own thread. */
  lemma OwnStep(s: State, h: nat) returns (a: Action)
    requires Inv(s) && s.lock.None? && s.pushing.None? && s.availQ == [] && s.usedQ == []
    requires h < NUM && s.reqs[h].Some?
    ensures a.Move? || a.Answer? || a.Push? || a.Finish?
    ensures Enabled(s, a) && Left(Do(s, a).reqs) < Left(s.reqs)
  {
    assert PhaseOk(s, h) && LayoutOk(s, h);
    var p := s.reqs[h].value.phase;
    if p.Seen? { FinishFrees(s, h); }
    a := if p.Fetched? then Move(h) else if p.Moved? then Answer(h) else if p.Answered? then Push(h) else Finish(h);
    Turns(s, a, h);
  }

  /** The request `h` that was in flight in `s` is the same one, or it has ended as it should. */
  predicate Ends(s: State, t: State, h: nat) {
    h < |s.reqs| == |t.reqs| && s.reqs[h].Some? ==>
      SameRequest(s, t, h) ||
      (var r := s.reqs[h].value;
       && t.reqs[h].None? && r.buf in t.data && r.sector in t.blocks
       && t.data[r.buf] == t.blocks[r.sector] == r.was)
  }

  predicate NoNew(s: State, t: State, h: nat) {
    h < |s.reqs| == |t.reqs| && t.reqs[h].Some? ==> s.reqs[h].Some? && SameRequest(s, t, h)
  }

  lemma StepEnds(s: State, t: State, a: Action, h: nat)
    requires Inv(s) && Inv(t) && Enabled(t, a) && !a.Submit? && !a.Edit?
    requires Ends(s, t, h) && forall g: nat :: NoNew(s, t, g)
    ensures Ends(s, Do(t, a), h) && NoNew(s, Do(t, a), h)
  {
    assert NoNew(s, t, h);
    if h < NUM && t.reqs[h].Some? {
      if a == Finish(h) {
        FinishFrees(t, h);
        assert DataOk(t, h) && PhaseOk(t, h);
      } else {
        StepKeepsRequest(t, a, h);
      }
    } else if h < NUM {
      assert a.Move? ==> NoNew(s, t, a.h) && PhaseOk(t, a.h) && Apart(s, a.h, h);
      StepStaysNone(t, a, h);
      if s.reqs[h].Some? { EndedStays(s, t, a, h); }
    }
  }

  lemma StepStaysNone(t: State, a: Action, h: nat)
    requires Enabled(t, a) && !a.Submit? && h < NUM && t.reqs[h].None?
    ensures |Do(t, a).reqs| == NUM && Do(t, a).reqs[h].None?
  {
  }

  lemma EndedStays(s: State, t: State, a: Action, h: nat)
    requires Enabled(t, a) && !a.Submit? && !a.Edit? && h < NUM && |s.reqs| == NUM && s.reqs[h].Some? && t.reqs[h].None?
    requires Ends(s, t, h) && (a.Move? ==> NoNew(s, t, a.h) && PhaseOk(t, a.h) && Apart(s, a.h, h))
    ensures var r, t' := s.reqs[h].value, Do(t, a);
      r.buf in t'.data && r.sector in t'.blocks && t'.data[r.buf] == t'.blocks[r.sector] == r.was
  {
  }

  lemma Extend(states: seq<State>, actions: seq<Action>, a: Action)
    requires Run(states, actions) && Enabled(states[|actions|], a)
    ensures Run(states + [Do(states[|actions|], a)], actions + [a])
  {
    var states', actions' := states + [Do(states[|actions|], a)], actions + [a];
    forall i | 0 <= i < |actions'|
      ensures Enabled(states'[i], actions'[i]) && states'[i + 1] == Do(states'[i], actions'[i])
    {
      if i < |actions| { assert states'[i] == states[i] && states'[i + 1] == states[i + 1]; }
    }
  }

  /** No run ends where the driver or the device is stuck: from its last state steps of both, without
      a new request, lead to a queue with every descriptor free and both rings read; and the
      block of every request that was in flight is then equal in its buffer and on the disk, and is
      what the request was to move. */
  lemma CanDrain(states: seq<State>, actions: seq<Action>) returns (states': seq<State>, actions': seq<Action>)
    requires Run(states, actions)
    ensures Run(states', actions') && actions <= actions' && states <= states'
    ensures forall i :: |actions| <= i < |actions'| ==> !actions'[i].Submit? && !actions'[i].Edit?
    ensures var s, t := states[|actions|], states'[|actions'|];
      && |t.reqs| == |t.free| == NUM && |s.reqs| == NUM
      && (forall h :: 0 <= h < NUM ==> t.reqs[h].None? && t.free[h])
      && t.lastAvail == t.availIdx && t.seenIdx == t.usedIdx
      && forall h :: 0 <= h < NUM && s.reqs[h].Some? ==>
           var r := s.reqs[h].value;
           r.buf in t.data && r.sector in t.blocks && t.data[r.buf] == t.blocks[r.sector] == r.was
  {
    states', actions' := states, actions;
    RunInv(states, actions, |actions|);
    var s := states[|actions|];
    while Left(states'[|actions'|].reqs) > 0
      invariant Run(states', actions') && actions <= actions' && states <= states'
      invariant forall i :: |actions| <= i < |actions'| ==> !actions'[i].Submit? && !actions'[i].Edit?
      invariant Inv(states'[|actions'|])
      invariant forall h: nat :: Ends(s, states'[|actions'|], h) && NoNew(s, states'[|actions'|], h)
      decreases Left(states'[|actions'|].reqs)
    {
      var t := states'[|actions'|];
      var a;
      if t.lock.Some? {
        PublishTurns(t);
        a := Publish;
      } else if t.pushing.Some? {
        BumpTurns(t);
        a := Bump;
      } else if t.availQ != [] {
        FetchTurns(t);
        a := Fetch;
      } else if t.usedQ != [] {
        SeeTurns(t);
        a := See;
      } else {
        var h := LeftSome(t.reqs);
        a := OwnStep(t, h);
      }
      Extend(states', actions', a);
      StepInv(t, a);
      forall h: nat ensures Ends(s, Do(t, a), h) && NoNew(s, Do(t, a), h) { StepEnds(s, t, a, h); }
      states', actions' := states' + [Do(t, a)], actions' + [a];
    }
    Drained(s, states'[|actions'|]);
  }

  lemma FirstIn(q: seq<nat>)
    requires Heads(q)
    ensures q != [] ==> q[0] < NUM && q[0] in q
  {
  }

  lemma Drained(s: State, t: State)
    requires Inv(s) && Inv(t) && Left(t.reqs) == 0 && forall h: nat :: Ends(s, t, h)
    ensures forall h :: 0 <= h < NUM ==> t.reqs[h].None? && t.free[h]
    ensures t.lastAvail == t.availIdx && t.seenIdx == t.usedIdx
    ensures forall h :: 0 <= h < NUM && s.reqs[h].Some? ==>
              var r := s.reqs[h].value;
              r.buf in t.data && r.sector in t.blocks && t.data[r.buf] == t.blocks[r.sector] == r.was
  {
    LeftNone(t.reqs);
    forall h: nat | h < NUM ensures t.free[h] && h !in t.availQ && h !in t.usedQ {
      assert TagOk(t, h) && PhaseOk(t, h);
    }
    forall h: nat | h < NUM && s.reqs[h].Some?
      ensures var r := s.reqs[h].value;
        r.buf in t.data && r.sector in t.blocks && t.data[r.buf] == t.blocks[r.sector] == r.was
    {
      assert Ends(s, t, h);
    }
    ReadEntry(t.ring, t.availQ, t.fetched, t.lastAvail, t.availIdx, t.lock);
    ReadEntry(t.uring, t.usedQ, t.seen, t.seenIdx, t.usedIdx, t.pushing);
    FirstIn(t.availQ);
    FirstIn(t.usedQ);
  }
}
