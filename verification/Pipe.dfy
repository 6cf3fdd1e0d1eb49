/** pipe.c: pipewrite, piperead and pipeclose, run by any number of processes in every
    interleaving that SleepWakeup allows. */
module Pipe {
  import opened Common
  import opened SleepWakeup
  import SleepProgress

  const PIPESIZE := 512
  const WORD := 0x1_0000_0000   // uint
  const NREAD: Chan := 0        // the channel &pi->nread, where readers sleep
  const NWRITE: Chan := 1       // the channel &pi->nwrite, where writers sleep

  /** `put` and `got` are history: the bytes stored in the ring and taken out of it; `who`
      stored each.  `killed` are the processes that kill has marked. */
  datatype Data = Data(data: seq<Byte>, nread: nat, nwrite: nat, readopen: bool, writeopen: bool,
                       put: seq<Byte>, who: seq<nat>, got: seq<Byte>, killed: set<nat>)

  /** A pipewrite of `n` bytes can read the bytes `src` of its caller, and then copyin fails; `from`
      is history: how much had been put when it began.  A piperead of `n` bytes can write `good`
      bytes of its caller, and then copyout fails. */
  datatype Local =
    | Outside
    | Writing(n: int, i: nat, src: seq<Byte>, from: nat)    // at the top of pipewrite's loop
    | Full(n: int, i: nat, src: seq<Byte>, from: nat)       // about to sleep until there is room
    | Wrote(n: int, i: nat, src: seq<Byte>, from: nat)      // past pipewrite's last wakeup
    | Waiting(n: int, good: nat)                            // at the top of piperead's first loop
    | Copying(n: int, i: nat, good: nat)                    // at the top of its second loop
    | Failed(n: int, i: nat, good: nat)                     // copyout failed
    | ReadAll(n: int, i: nat, good: nat, failed: bool)      // past piperead's wakeup
    | Closing(writable: bool)                               // in pipeclose
    | Closed(writable: bool)                                // the open flag is cleared
    | Announced(writable: bool)                             // past pipeclose's wakeup

  type Machine = State<Data, Local>

  predicate IsEmpty(d: Data) {
    d.nread == d.nwrite
  }

  predicate IsFull(d: Data) {
    d.nwrite == (d.nread + PIPESIZE) % WORD
  }

  function Put(d: Data, p: nat, ch: Byte): Data
    requires |d.data| == PIPESIZE
  {
    d.(data := d.data[d.nwrite % PIPESIZE := ch], nwrite := (d.nwrite + 1) % WORD,
       put := d.put + [ch], who := d.who + [p])
  }

  function Get(d: Data): Data
    requires |d.data| == PIPESIZE
  {
    d.(nread := (d.nread + 1) % WORD, got := d.got + [d.data[d.nread % PIPESIZE]])
  }

  /** Outside the pipe a process may kill another. */
  ghost predicate Next(p: nat, d: Data, l: Local, step: Step<Data, Local>) {
    |d.data| == PIPESIZE &&
    match l
    case Outside =>
      || (exists n: int, src: seq<Byte> :: step == Enter(Writing(n, 0, src, |d.put|)))
      || (exists n: int, good: nat :: step == Enter(Waiting(n, good)))
      || (exists w: bool :: step == Enter(Closing(w)))
      || (exists q: nat :: step == Set(Kill(d, q), Outside))
    case Writing(n, i, src, from) =>
      if i >= n then step == Wake(NREAD, Wrote(n, i, src, from))
      else if !d.readopen || p in d.killed then step == Leave(Outside)
      else if IsFull(d) then step == Wake(NREAD, Full(n, i, src, from))
      else if i >= |src| then step == Wake(NREAD, Wrote(n, i, src, from))
      else step == Set(Put(d, p, src[i]), Writing(n, i + 1, src, from))
    case Full(n, i, src, from) => step == Sleep(NWRITE, Writing(n, i, src, from))
    case Wrote(_, _, _, _) => step == Leave(Outside)
    case Waiting(n, good) =>
      if !(IsEmpty(d) && d.writeopen) then step == Set(d, Copying(n, 0, good))
      else if p in d.killed then step == Leave(Outside)
      else step == Sleep(NREAD, Waiting(n, good))
    case Copying(n, i, good) =>
      if i >= n || IsEmpty(d) then step == Wake(NWRITE, ReadAll(n, i, good, false))
      else if i >= good then step == Set(Get(d), Failed(n, i, good))
      else step == Set(Get(d), Copying(n, i + 1, good))
    case Failed(n, i, good) => step == Wake(NWRITE, ReadAll(n, i, good, true))
    case ReadAll(_, _, _, _) => step == Leave(Outside)
    case Closing(true) => step == Set(d.(writeopen := false), Closed(true))
    case Closing(false) => step == Set(d.(readopen := false), Closed(false))
    case Closed(writable) => step == Wake(if writable then NREAD else NWRITE, Announced(writable))
    case Announced(_) => step == Leave(Outside)
  }

  function Kill(d: Data, q: nat): Data {
    d.(killed := d.killed + {q})
  }

  /** Whatever the pipe looks like, the code knows what to do next. */
  lemma AlwaysAStep(p: nat, d: Data, l: Local) returns (step: Step<Data, Local>)
    requires |d.data| == PIPESIZE
    ensures Next(p, d, l, step)
  {
    match l
    case Outside => step := Enter(Closing(true));
    case Writing(n, i, src, from) =>
      step := if i >= n then Wake(NREAD, Wrote(n, i, src, from))
              else if !d.readopen || p in d.killed then Leave(Outside)
              else if IsFull(d) then Wake(NREAD, Full(n, i, src, from))
              else if i >= |src| then Wake(NREAD, Wrote(n, i, src, from))
              else Set(Put(d, p, src[i]), Writing(n, i + 1, src, from));
    case Full(n, i, src, from) => step := Sleep(NWRITE, Writing(n, i, src, from));
    case Waiting(n, good) =>
      step := if !(IsEmpty(d) && d.writeopen) then Set(d, Copying(n, 0, good))
              else if p in d.killed then Leave(Outside) else Sleep(NREAD, Waiting(n, good));
    case Copying(n, i, good) =>
      step := if i >= n || IsEmpty(d) then Wake(NWRITE, ReadAll(n, i, good, false))
              else Set(Get(d), if i >= good then Failed(n, i, good) else Copying(n, i + 1, good));
    case Failed(n, i, good) => step := Wake(NWRITE, ReadAll(n, i, good, true));
    case Closing(w) => step := Set(if w then d.(writeopen := false) else d.(readopen := false), Closed(w));
    case Closed(w) => step := Wake(if w then NREAD else NWRITE, Announced(w));
    case _ => step := Leave(Outside);
  }

  predicate Blocked(d: Data, c: Chan) {
    (c == NREAD && IsEmpty(d) && d.writeopen) || (c == NWRITE && IsFull(d) && d.readopen)
  }

  ghost function Code(): Program<Data, Local> {
    Program(
      (p: nat, d: Data, l: Local, step: Step<Data, Local>) => Next(p, d, l, step),
      (l: Local) => !l.Outside?,
      (d: Data, c: Chan) => Blocked(d, c))
  }

  predicate Started(s: Machine) {
    && |s.d.data| == PIPESIZE && s.d.nread == 0 && s.d.nwrite == 0 && s.d.put == [] && s.d.who == [] && s.d.got == []
    && forall p :: 0 <= p < |s.procs| ==> s.procs[p].local.Outside?
  }

  ghost predicate Behaviour(states: seq<Machine>, actions: seq<Action<Data, Local>>) {
    Run(Code(), states, actions) && Started(states[0])
  }

  // ----- No stuck sleeper -----

  /** Equal but for the marks of kill. */
  predicate Same(d: Data, d': Data) {
    d.(killed := {}) == d'.(killed := {})
  }

  predicate Section(d0: Data, quiet: set<Chan>, d: Data, l: Local) {
    match l
    case Writing(_, _, _, _) => d.writeopen == d0.writeopen && (Same(d, d0) || (d.readopen && !Blocked(d0, NWRITE)))
    case Full(_, _, _, _) => NREAD in quiet && Blocked(d, NWRITE) && (Same(d, d0) || !Blocked(d0, NWRITE))
    case Wrote(_, _, _, _) => NREAD in quiet && (Same(d, d0) || !Blocked(d0, NWRITE))
    case Waiting(_, _) => Same(d, d0)
    case Copying(_, _, _) => !Blocked(d0, NREAD)
    case Failed(_, _, _) => !Blocked(d0, NREAD)
    case ReadAll(_, _, _, _) => !Blocked(d0, NREAD) && NWRITE in quiet
    case Closing(_) => Same(d, d0)
    case Closed(writable) => Same(d, if writable then d0.(writeopen := false) else d0.(readopen := false))
    case Announced(writable) =>
      && Same(d, if writable then d0.(writeopen := false) else d0.(readopen := false))
      && (if writable then NREAD in quiet else NWRITE in quiet)
    case Outside => false
  }

  function Notes(): Outline<Data, Local> {
    Outline((d: Data) => true, (p, d0, quiet, d, l) => Section(d0, quiet, d, l),
            (p: nat, l: Local) => l.Writing? || l.Waiting?)
  }

  /** The writer leaves at pipe.c:84-87, without a wakeup, a buffer that is no longer empty as
      it was when the writer last got the lock. */
  predicate Abandons(s: Machine, a: Action<Data, Local>) {
    && a.Ask? && a.p < |s.procs| && s.procs[a.p].local.Writing? && a.step.Leave?
    && IsEmpty(s.d0) && !IsEmpty(s.d)
  }

  /** And a reader sleeps. */
  ghost predicate Strands(s: Machine, a: Action<Data, Local>) {
    Abandons(s, a) && exists q: nat :: q < |s.procs| && Asleep(s.procs[q], NREAD)
  }

  /** Every step but that one pays its wakeups. */
  lemma StepPays(s: Machine, a: Action<Data, Local>)
    requires Inv(Code(), Notes(), s) && Enabled(Code(), s, a) && !Strands(s, a)
    ensures Pays(Code(), Notes(), s, a)
  {
    if a.Ask? {
      var l := s.procs[a.p].local;
      assert LkOk(Code(), Notes(), s, a.p);
      if l.Writing? && a.step.Leave? {
        assert Section(s.d0, s.quiet, s.d, l);
        assert IsEmpty(s.d0) && !IsEmpty(s.d) ==> NobodyOn(s, NREAD);
      } else {
        LocalPays(a.p, s.d, l, a.step);
      }
    }
  }

  lemma LocalPays(p: nat, d: Data, l: Local, step: Step<Data, Local>)
    requires Next(p, d, l, step) && !(l.Writing? && step.Leave?)
    ensures StepOk(Code(), Notes(), p, d, l, step)
  {
    if l.Outside? {
      forall d0, q, m | Section(d0, q, d, m) && step.Set? ensures Section(d0, q, step.d, m) {}
    } else {
      forall d0, q ensures InsideOk(Code(), Notes(), p, d0, q, d, l, step) {
        if l.Writing? { WritingPays(p, d0, q, d, l, step); }
      }
    }
  }

  lemma WritingPays(p: nat, d0: Data, q: set<Chan>, d: Data, l: Local, step: Step<Data, Local>)
    requires l.Writing? && Next(p, d, l, step) && !step.Leave?
    ensures InsideOk(Code(), Notes(), p, d0, q, d, l, step)
  {
  }

  lemma {:induction false} UntilStranded(states: seq<Machine>, actions: seq<Action<Data, Local>>, i: nat)
    requires Behaviour(states, actions) && i < |states|
    requires forall k :: 0 <= k < i ==> !Strands(states[k], actions[k])
    ensures Inv(Code(), Notes(), states[i])
  {
    if i == 0 {
      InitInv(Code(), Notes(), states[0]);
    } else {
      UntilStranded(states, actions, i - 1);
      assert Moves(Code(), states[i - 1], actions[i - 1], states[i]);
      StepPays(states[i - 1], actions[i - 1]);
      StepInv(Code(), Notes(), states[i - 1], actions[i - 1]);
    }
  }

  /** When the lock is free, a reader that sleeps, or is about to, means an empty buffer with
      the write end open, and a writer a full one with the read end open. */
  ghost predicate StillWaits(s: Machine, p: nat, c: Chan) {
    s.lk.None? && p < |s.procs| && Asleep(s.procs[p], c) ==> Blocked(s.d, c)
  }

  ghost predicate NeverStuck(states: seq<Machine>) {
    forall i: nat, p: nat, c: Chan :: i < |states| ==> StillWaits(states[i], p, c)
  }

  lemma StrandedReader(s: Machine, a: Action<Data, Local>, t: Machine) returns (q: nat)
    requires Moves(Code(), s, a, t) && Strands(s, a)
    ensures !StillWaits(t, q, NREAD)
  {
    q :| q < |s.procs| && Asleep(s.procs[q], NREAD);
  }

  /** In every run, whoever is killed and whenever: nobody is ever stuck if and only if no
      step strands a reader. */
  lemma StuckExactly(states: seq<Machine>, actions: seq<Action<Data, Local>>)
    requires Behaviour(states, actions)
    ensures NeverStuck(states) <==> forall k :: 0 <= k < |actions| ==> !Strands(states[k], actions[k])
  {
    if forall k :: 0 <= k < |actions| ==> !Strands(states[k], actions[k]) {
      forall i: nat, p: nat, c: Chan | i < |states| ensures StillWaits(states[i], p, c) {
        UntilStranded(states, actions, i);
        assert Expected(Code(), states[i], p, c);
      }
    } else {
      var k: nat :| k < |actions| && Strands(states[k], actions[k]);
      assert Moves(Code(), states[k], actions[k], states[k + 1]);
      var q := StrandedReader(states[k], actions[k], states[k + 1]);
    }
  }

  /** What a writer can see for itself: a run in which no killed writer leaves bytes in a buffer
      that was empty when it last got the lock never has anybody stuck. */
  lemma HarmlessKills(states: seq<Machine>, actions: seq<Action<Data, Local>>)
    requires Behaviour(states, actions)
    requires forall k :: 0 <= k < |actions| ==> !Abandons(states[k], actions[k])
    ensures NeverStuck(states)
  {
    StuckExactly(states, actions);
  }

  // ----- A killed writer -----

  function Sleeper(): seq<Action<Data, Local>> {
    [Ask(0, Enter(Waiting(1, 1))), Ask(0, Sleep(NREAD, Waiting(1, 1))), Go(0), Go(0), Go(0), Go(0), Go(0), Release(0)]
  }

  /** `s` after steps of process 0 that left it as `p` and the lock as `lk`. */
  function At(s: Machine, lk: Option<nat>, p: Proc<Local>): Machine
    requires |s.procs| > 0
  {
    s.(lk := lk, procs := s.procs[0 := p], d0 := s.d, quiet := {})
  }

  lemma GoAt(s: Machine, lk: Option<nat>, p: Proc<Local>, lk': Option<nat>, p': Proc<Local>)
    requires |s.procs| > 0 && !p.pc.Waking? && !p.pc.Looking? && !p.pc.Relock?
    requires Enabled(Code(), At(s, lk, p), Go(0))
    requires DoGo(State(lk, s.d, [p], s.d, {}), 0) == State(lk', s.d, [p'], s.d, {})
    ensures Moves(Code(), At(s, lk, p), Go(0), At(s, lk', p'))
  {
    var t := At(s, lk, p);
    assert [p][0 := p'][0] == p';
    assert forall q: Proc<Local> {:trigger t.procs[0 := q]} :: t.procs[0 := q] == s.procs[0 := q];
    assert forall q: Proc<Local> {:trigger [p][0 := q]} :: [p][0 := q] == [q] && [q][0] == q;
  }

  /** The reader on its way to sleep. */
  function Nap(k: nat): Proc<Local> {
    var l, c := Waiting(1, 1), Some(NREAD);
    match k
    case 1 => Proc(Running, l, RUNNING, None, Free)
    case 2 => Proc(WantOwn(NREAD), l, RUNNING, None, Free)
    case 3 => Proc(HaveOwn(NREAD), l, RUNNING, None, Held(0))
    case 4 => Proc(Window(NREAD), l, RUNNING, None, Held(0))
    case 5 => Proc(Pc.Marked(NREAD), l, RUNNING, c, Held(0))
    case 6 => Proc(Swtch(NREAD), l, SLEEPING, c, Held(0))
    case 7 => Proc(Off(NREAD), l, SLEEPING, c, Scheduler)
    case _ => Proc(Off(NREAD), l, SLEEPING, c, Free)
  }

  function NapState(s: Machine, k: nat): Machine
    requires |s.procs| > 0
  {
    if k == 0 then s else At(s, if k < 4 then Some(0) else None, Nap(k))
  }

  ghost predicate AwakeThree(s: Machine) {
    && Init(Code(), s) && Started(s) && |s.procs| == 3 && s.d.writeopen && s.d.readopen && s.d.killed == {}
    && s.procs[0].pc.Running? && s.procs[1].pc.Running? && s.procs[2].pc.Running?
  }

  lemma NapMoves(s: Machine, k: nat)
    requires AwakeThree(s) && k < 8
    ensures Moves(Code(), NapState(s, k), Sleeper()[k], NapState(s, k + 1))
  {
    assert InitProc(Code(), s.procs[0]);
    if 2 <= k < 7 {
      GoAt(s, if k < 4 then Some(0) else None, Nap(k), if k < 3 then Some(0) else None, Nap(k + 1));
    } else if k > 0 {
      assert NapState(s, k).procs[0 := Nap(k + 1)] == s.procs[0 := Nap(k + 1)];
    }
  }

  /** A writer stores a byte, is killed, and leaves the reader asleep beside it. */
  lemma KilledWriter(s: Machine) returns (all: seq<Machine>, acts: seq<Action<Data, Local>>)
    requires AwakeThree(s)
    ensures Behaviour(all, acts) && !NeverStuck(all)
  {
    var g := Code();
    assert InitProc(g, s.procs[1]) && InitProc(g, s.procs[2]);
    var t := NapState(s, 8);
    var l0, l1 := Writing(2, 0, [7, 8], 0), Writing(2, 1, [7, 8], 0);
    var a1, a2 := Ask(1, Enter(l0)), Ask(1, Set(Put(t.d, 1, 7), l1));
    var t1 := Do(g, t, a1);
    var t2 := Do(g, t1, a2);
    var a3, a4 := Ask(2, Set(Kill(t2.d, 1), Outside)), Ask(1, Leave(Outside));
    var t3 := Do(g, t2, a3);
    var t4 := Do(g, t3, a4);
    var states := seq(9, k requires 0 <= k < 9 => NapState(s, k));
    all, acts := states + [t1, t2, t3, t4], Sleeper() + [a1, a2, a3, a4];
    forall i | 0 <= i < |acts| ensures Moves(g, all[i], acts[i], all[i + 1]) {
      if i < 8 { NapMoves(s, i); }
    }
    assert !StillWaits(all[12], 0, NREAD);
  }

  // ----- First in, first out -----

  function Count(d: Data): nat {
    (d.nwrite - d.nread) % WORD
  }

  /** The bytes in the ring, oldest first. */
  function Buffered(d: Data): (b: seq<Byte>)
    requires |d.data| == PIPESIZE
  {
    seq(Count(d), i requires 0 <= i < Count(d) => d.data[(d.nread + i) % PIPESIZE])
  }

  predicate RingOk(d: Data) {
    && |d.data| == PIPESIZE && d.nread < WORD && d.nwrite < WORD && Count(d) <= PIPESIZE
    && d.put == d.got + Buffered(d) && |d.who| == |d.put|
  }

  lemma Slots(a: nat, b: nat)
    requires a < b < a + PIPESIZE
    ensures a % PIPESIZE != b % PIPESIZE
  {
  }

  lemma CountIs(d: Data)
    requires d.nread < WORD && d.nwrite < WORD
    ensures Count(d) == if d.nread <= d.nwrite then d.nwrite - d.nread else d.nwrite - d.nread + WORD
  {
  }

  lemma Increment(x: nat)
    requires x < WORD
    ensures (x + 1) % WORD == if x + 1 == WORD then 0 else x + 1
  {
  }

  lemma SlotAfterWrap(x: int)
    ensures (x - WORD) % PIPESIZE == x % PIPESIZE
  {
  }

  lemma CountPut(d: Data, p: nat, ch: Byte)
    requires RingOk(d) && !IsFull(d)
    ensures Count(d) < PIPESIZE && Count(Put(d, p, ch)) == Count(d) + 1
    ensures d.nwrite % PIPESIZE == (d.nread + Count(d)) % PIPESIZE
  {
    CountIs(d);
    CountIs(Put(d, p, ch));
    Increment(d.nwrite);
    SlotAfterWrap(d.nread + Count(d));
  }

  lemma CountGet(d: Data)
    requires RingOk(d) && !IsEmpty(d)
    ensures Count(d) > 0 && Count(Get(d)) == Count(d) - 1
  {
    CountIs(d);
    CountIs(Get(d));
    Increment(d.nread);
  }

  lemma GetAt(d: Data, i: nat)
    requires RingOk(d) && !IsEmpty(d) && i < Count(d) - 1
    ensures Count(Get(d)) == Count(d) - 1 && Buffered(Get(d))[i] == Buffered(d)[i + 1]
  {
    CountGet(d);
    Increment(d.nread);
    SlotAfterWrap(d.nread + (i + 1));
  }

  lemma PutRing(d: Data, p: nat, ch: Byte)
    requires RingOk(d) && !IsFull(d)
    ensures RingOk(Put(d, p, ch))
  {
    var d' := Put(d, p, ch);
    CountPut(d, p, ch);
    var b, b' := Buffered(d), Buffered(d');
    forall i | 0 <= i < |b'| ensures b'[i] == (b + [ch])[i] {
      if i < |b| { Slots(d.nread + i, d.nread + Count(d)); }
    }
    assert b' == b + [ch];
  }

  lemma Shifted(b: seq<Byte>, b': seq<Byte>, got: seq<Byte>)
    requires |b| == |b'| + 1 && forall i :: 0 <= i < |b'| ==> b'[i] == b[i + 1]
    ensures got + b == got + [b[0]] + b'
  {
  }

  lemma GetRing(d: Data)
    requires RingOk(d) && !IsEmpty(d)
    ensures RingOk(Get(d))
  {
    CountGet(d);
    var b, b' := Buffered(d), Buffered(Get(d));
    forall i | 0 <= i < |b'| ensures b'[i] == b[i + 1] { GetAt(d, i); }
    Shifted(b, b', d.got);
    Increment(d.nread);
  }

  lemma StepRing(p: nat, d: Data, l: Local, step: Step<Data, Local>)
    requires RingOk(d) && Next(p, d, l, step)
    ensures RingOk(DataAfter(d, step))
  {
    if step.Set? {
      if l.Writing? {
        PutRing(d, p, l.src[l.i]);
      } else if l.Copying? {
        GetRing(d);
      } else {
        assert Buffered(step.d) == Buffered(d);
      }
    }
  }

  /** In every run, killed or not, and with the 32-bit counters wrapping around: what has
      been taken out is a prefix of what was put in, the rest of it is what the ring holds,
      and the ring never holds more than PIPESIZE bytes. */
  lemma {:induction false} Fifo(states: seq<Machine>, actions: seq<Action<Data, Local>>, i: nat)
    requires Behaviour(states, actions) && i < |states|
    ensures RingOk(states[i].d)
    ensures states[i].d.got <= states[i].d.put && |states[i].d.put| - |states[i].d.got| <= PIPESIZE
  {
    if i == 0 {
      assert Buffered(states[0].d) == [];
    } else {
      Fifo(states, actions, i - 1);
      var s, a := states[i - 1], actions[i - 1];
      assert Moves(Code(), s, a, states[i]);
      AskLocals(Code(), s, a);
      if a.Ask? { StepRing(a.p, s.d, s.procs[a.p].local, a.step); }
    }
  }

  // ----- What one call moves -----

  /** The same program for a reader who does not care for wakeups: every run of it is disciplined. */
  ghost function Any(): Program<Data, Local> {
    Code().(blocked := (d: Data, c: Chan) => true)
  }

  lemma AnyRun(states: seq<Machine>, actions: seq<Action<Data, Local>>)
    requires Run(Code(), states, actions)
    ensures Run(Any(), states, actions)
  {
    forall i | 0 <= i < |states[0].procs| ensures InitProc(Any(), states[0].procs[i]) {
      assert InitProc(Code(), states[0].procs[i]);
    }
    forall i | 0 <= i < |actions| ensures Moves(Any(), states[i], actions[i], states[i + 1]) {
      assert Moves(Code(), states[i], actions[i], states[i + 1]);
    }
  }

  /** Since the section found `d0` it has put nothing and taken `k` bytes. */
  predicate Took(d0: Data, d: Data, k: nat) {
    d.put == d0.put && d0.got <= d.got && |d.got| == |d0.got| + k
  }

  predicate ReadSoFar(d0: Data, d: Data, l: Local) {
    match l
    case Waiting(_, _) => Took(d0, d, 0)
    case Copying(n, i, good) => Took(d0, d, i) && i <= good && (i == 0 || i <= n)
    case Failed(n, i, good) => Took(d0, d, i + 1) && i == good < n
    case ReadAll(n, i, good, failed) =>
      && Took(d0, d, if failed then i + 1 else i) && i <= good && (i == 0 || i <= n)
      && (if failed then i == good < n else i >= n || IsEmpty(d))
    case _ => true
  }

  ghost function Reads(): Outline<Data, Local> {
    Outline((d: Data) => true, (p, d0, quiet, d, l) => ReadSoFar(d0, d, l),
            (p: nat, l: Local) => l.Writing? || l.Waiting?)
  }

  lemma ReadsDisciplined()
    ensures Disciplined(Any(), Reads())
  {
    var g, o := Any(), Reads();
    forall p, d, l, step | g.can(p, d, l, step) ensures StepOk(g, o, p, d, l, step) {
      if l.Outside? {
        forall h: nat, d0, q, m | o.inv(h, d0, q, d, m) && step.Set? ensures o.inv(h, d0, q, step.d, m) {}
      } else {
        forall d0, q ensures InsideOk(g, o, p, d0, q, d, l, step) {}
      }
    }
  }

  /** In every run, killed or not: when piperead is past its wakeup it has taken, since it last got
      the lock, as many bytes as it is about to return, and one more if copyout failed for that
      one; if it did not fail these are all it was asked for, or the ring is empty. */
  lemma ReadMoves(states: seq<Machine>, actions: seq<Action<Data, Local>>, i: nat, p: nat)
    requires Behaviour(states, actions) && i < |states| && p < |states[i].procs| && states[i].procs[p].local.ReadAll?
    ensures var s, r := states[i], states[i].procs[p].local;
      && s.lk == Some(p) && s.d.put == s.d0.put && s.d0.got <= s.d.got
      && |s.d.got| == |s.d0.got| + (if r.failed then r.i + 1 else r.i)
      && (if r.failed then r.i == r.good < r.n
          else r.i <= r.good && (r.i == r.n || (r.n < 0 && r.i == 0) || (r.i < r.n && IsEmpty(s.d))))
  {
    AnyRun(states, actions);
    ReadsDisciplined();
    RunInv(Any(), Reads(), states, actions, i);
    assert LkOk(Any(), Reads(), states[i], p);
  }

  /** Of the bytes put from position `from` on, those that process `p` has put. */
  function Sent(put: seq<Byte>, who: seq<nat>, p: nat, from: nat): seq<Byte>
    requires |who| == |put|
    decreases |put|
  {
    var k := |put| - 1;
    if |put| <= from then [] else Sent(put[..k], who[..k], p, from) + (if who[k] == p then [put[k]] else [])
  }

  lemma SentMore(d: Data, q: nat, ch: Byte, p: nat, from: nat)
    requires |d.data| == PIPESIZE && |d.who| == |d.put| && from <= |d.put|
    ensures var d' := Put(d, q, ch);
      Sent(d'.put, d'.who, p, from) == Sent(d.put, d.who, p, from) + (if q == p then [ch] else [])
  {
    var d' := Put(d, q, ch);
    assert d'.put[..|d.put|] == d.put && d'.who[..|d.put|] == d.who;
  }

  predicate WriteSoFar(d: Data, p: nat, l: Local) {
    l.Writing? || l.Full? || l.Wrote? ==>
      && |d.who| == |d.put| && l.from <= |d.put| && l.i <= |l.src| && (l.i == 0 || l.i <= l.n)
      && Sent(d.put, d.who, p, l.from) == l.src[..l.i]
      && (l.Wrote? ==> l.i >= l.n || l.i == |l.src|)
  }

  lemma StepWrites(q: nat, d: Data, l: Local, step: Step<Data, Local>, p: nat, m: Local)
    requires |d.who| == |d.put| && Next(q, d, l, step) && WriteSoFar(d, p, m) && (p == q ==> m == l)
    ensures WriteSoFar(DataAfter(d, step), p, if p == q then step.l else m)
    ensures !step.Spawn?
  {
    if step.Set? && l.Writing? {
      var from := if p == q then l.from else if m.Writing? || m.Full? || m.Wrote? then m.from else 0;
      SentMore(d, q, l.src[l.i], p, from);
      assert l.src[..l.i] + [l.src[l.i]] == l.src[..l.i + 1];
    }
  }

  /** In every run, killed or not: pipewrite has put as many bytes as it counts, since it began,
      and they are the first of its caller's, in order, whatever other writers put between them.
      It gets past its last wakeup only when these are all it was asked for or all that copyin
      can read. */
  lemma {:induction false} WriteMoves(states: seq<Machine>, actions: seq<Action<Data, Local>>, i: nat, p: nat)
    requires Behaviour(states, actions) && i < |states| && p < |states[i].procs|
    ensures var d, l := states[i].d, states[i].procs[p].local;
      l.Writing? || l.Full? || l.Wrote? ==>
        && |d.who| == |d.put| && l.i <= |l.src| && (l.i == 0 || l.i <= l.n)
        && Sent(d.put, d.who, p, l.from) == l.src[..l.i]
        && (l.Wrote? ==> l.i >= l.n || l.i == |l.src|)
    ensures WriteSoFar(states[i].d, p, states[i].procs[p].local)
  {
    if i > 0 {
      var s, a := states[i - 1], actions[i - 1];
      assert Moves(Code(), s, a, states[i]);
      AskLocals(Code(), s, a);
      assert |Locals(states[i])| == |Locals(s)|;
      WriteMoves(states, actions, i - 1, p);
      Fifo(states, actions, i - 1);
      if a.Ask? { StepWrites(a.p, s.d, s.procs[a.p].local, a.step, p, s.procs[p].local); }
      assert Locals(states[i])[p] == states[i].procs[p].local;
    }
  }

  lemma AnyPlain()
    ensures SleepProgress.Plain(Any())
  {
    var g := Any();
    forall p: nat, d, l, step | g.can(p, d, l, step)
      ensures !step.Lock? && !step.Unlock? && !step.Spawn? && !step.Depart?
    {
      assert Next(p, d, l, step);
    }
  }

  /** From the last state of every run, killed or not, all processes come out of sleep and wakeup, or
      stay switched away, except those that wait for the lock of the pipe. */
  lemma AllComeOut(states: seq<Machine>, actions: seq<Action<Data, Local>>)
      returns (states': seq<Machine>, actions': seq<Action<Data, Local>>)
    requires Behaviour(states, actions)
    ensures Run(Any(), states', actions') && actions <= actions' && states <= states'
    ensures forall p: nat :: SleepProgress.Outside(states'[|actions'|], p)
  {
    AnyRun(states, actions);
    ReadsDisciplined();
    AnyPlain();
    states', actions' := SleepProgress.AllComeOut(Any(), Reads(), states, actions);
  }
}
