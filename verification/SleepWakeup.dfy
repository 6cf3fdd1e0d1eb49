/** sleep and wakeup under any program that uses them with one condition lock.

    The condition lock `lk`, every process's own lock and the scheduler's hand-over of that
    lock are separate steps, and wakeup scans the process table one entry at a time.  What
    the program does between those steps is a parameter: SleepLock, Pipe, ExitWait, LogSleep
    and VirtioSleep are such programs. */
module SleepWakeup {
  import opened Common

  type Chan = nat

  /** What a process asks for next.  `l` is its control state afterwards. */
  datatype Step<D, L> =
    | Enter(l: L)                       // acquire(lk)
    | Leave(l: L)                       // release(lk)
    | Set(d: D, l: L)                   // change the shared data
    | Lock(k: nat, l: L)                // acquire(&proc[k].lock)
    | Unlock(k: nat, l: L)              // release(&proc[k].lock)
    | Sleep(c: Chan, l: L)              // sleep(c, lk)
    | Wake(c: Chan, l: L)               // wakeup(c)
    | Spawn(k: nat, child: L, l: L)     // proc[k] becomes runnable
    | Depart(l: L)                      // release(lk); sched(), for good

  /** A program: the steps process `p` may take, which control states hold `lk`, and whether
      the condition that sleepers on a channel wait for still keeps them waiting. */
  datatype Program<!D, !L> = Program(
    can: (nat, D, L, Step<D, L>) -> bool,
    inside: L -> bool,
    blocked: (D, Chan) -> bool)

  datatype Pc =
    | Running
    | WantOwn(c: Chan)         // sleep: about to acquire p->lock
    | HaveOwn(c: Chan)         // about to release lk
    | Window(c: Chan)          // about to set p->chan
    | Marked(c: Chan)          // about to set p->state
    | Swtch(c: Chan)           // about to switch to the scheduler
    | Off(c: Chan)             // switched away
    | Back(c: Chan)            // running again, about to clear p->chan
    | Cleared                  // about to release p->lock
    | Relock                   // about to reacquire lk
    | Waking(c: Chan, k: nat)  // wakeup: about to look at proc[k]
    | Looking(c: Chan, k: nat) // holding proc[k].lock
    | Departing                // exiting, still on its own stack
    | Gone                     // no stack in use

  datatype RunState = RUNNING | SLEEPING | RUNNABLE

  datatype Owner = Free | Scheduler | Held(who: nat)

  datatype Proc<L> = Proc(pc: Pc, local: L, state: RunState, chan: Option<Chan>, lock: Owner)

  /** `d0` and `quiet` are history of the section that holds `lk`: the data it found, and
      the channels whose wakeup it has finished. */
  datatype State<D, L> = State(lk: Option<nat>, d: D, procs: seq<Proc<L>>, d0: D, quiet: set<Chan>)

  datatype Action<D, L> =
    | Ask(p: nat, step: Step<D, L>)  // the program's next step
    | Go(p: nat)                     // the next step inside sleep, wakeup or exit
    | Release(p: nat)                // the scheduler releases p->lock after the switch
    | Dispatch(p: nat)               // the scheduler picks p
    | Prod(p: nat)                   // kill, or a wakeup meant for others

  predicate Enabled<D, L>(g: Program<D, L>, s: State<D, L>, a: Action<D, L>) {
    && a.p < |s.procs|
    && var p := s.procs[a.p];
       match a
       case Ask(i, step) =>
         && p.pc.Running? && g.can(i, s.d, p.local, step)
         && (step.Enter? ==> s.lk.None?)
         && (step.Lock? ==> step.k < |s.procs| && s.procs[step.k].lock.Free?)
         && (step.Unlock? ==> step.k < |s.procs| && s.procs[step.k].lock == Held(i))
         && (step.Spawn? ==> step.k < |s.procs| && step.k != i && s.procs[step.k].pc.Gone?)
         && (step.Depart? ==> p.lock == Held(i))
       case Go(i) =>
         && !p.pc.Running? && !p.pc.Off? && !p.pc.Gone?
         && (p.pc.WantOwn? ==> p.lock.Free?)
         && (p.pc.Relock? ==> s.lk.None?)
         && (p.pc.Waking? && p.pc.k < |s.procs| && p.pc.k != i ==> s.procs[p.pc.k].lock.Free?)
         && (p.pc.Looking? ==> p.pc.k < |s.procs| && p.pc.k != i)
       case Release(_) => p.lock.Scheduler?
       case Dispatch(_) => p.pc.Off? && p.lock.Free? && p.state.RUNNABLE?
       case Prod(_) => p.lock.Free? && p.state.SLEEPING?
  }

  function With<D, L>(s: State<D, L>, i: nat, p: Proc<L>): State<D, L>
    requires i < |s.procs|
  {
    s.(procs := s.procs[i := p])
  }

  function DoStep<D, L>(s: State<D, L>, i: nat, step: Step<D, L>): State<D, L>
    requires i < |s.procs|
    requires (step.Lock? || step.Unlock? || step.Spawn?) ==> step.k < |s.procs|
  {
    var s1 := With(s, i, s.procs[i].(local := step.l));
    var p := s1.procs[i];
    match step
    case Enter(_) => s1.(lk := Some(i), d0 := s.d, quiet := {})
    case Leave(_) => s1.(lk := None)
    case Set(d, _) => s1.(d := d)
    case Lock(k, _) => With(s1, k, s1.procs[k].(lock := Held(i)))
    case Unlock(k, _) => With(s1, k, s1.procs[k].(lock := Free))
    case Sleep(c, _) => With(s1, i, p.(pc := WantOwn(c)))
    case Wake(c, _) => With(s1, i, p.(pc := Waking(c, 0)))
    case Spawn(k, child, _) => With(s1, k, s1.procs[k].(pc := Running, local := child, state := RUNNING))
    case Depart(_) => With(s1, i, p.(pc := Departing)).(lk := None)
  }

  /** sleep is proc.c:903-928, wakeup is proc.c:932-944. */
  function DoGo<D, L>(s: State<D, L>, i: nat): State<D, L>
    requires i < |s.procs|
    requires var pc := s.procs[i].pc; pc.Looking? ==> pc.k < |s.procs| && pc.k != i
  {
    var p := s.procs[i];
    match p.pc
    case WantOwn(c) => With(s, i, p.(pc := HaveOwn(c), lock := Held(i)))
    case HaveOwn(c) => With(s, i, p.(pc := Window(c))).(lk := None)
    case Window(c) => With(s, i, p.(pc := Marked(c), chan := Some(c)))
    case Marked(c) => With(s, i, p.(pc := Swtch(c), state := SLEEPING))
    case Swtch(c) => With(s, i, p.(pc := Off(c), lock := Scheduler))
    case Back(c) => With(s, i, p.(pc := Cleared, chan := None))
    case Cleared => With(s, i, p.(pc := Relock, lock := Free))
    case Relock => With(s, i, p.(pc := Running)).(lk := Some(i), d0 := s.d, quiet := {})
    case Waking(c, k) =>
      if k >= |s.procs| then With(s, i, p.(pc := Running)).(quiet := s.quiet + {c})
      else if k == i then With(s, i, p.(pc := Waking(c, k + 1)))
      else With(With(s, i, p.(pc := Looking(c, k))), k, s.procs[k].(lock := Held(i)))
    case Looking(c, k) =>
      var q := s.procs[k];
      var woken := if q.state.SLEEPING? && q.chan == Some(c) then q.(state := RUNNABLE) else q;
      With(With(s, i, p.(pc := Waking(c, k + 1))), k, woken.(lock := Free))
    case Departing => With(s, i, p.(pc := Gone, lock := Scheduler))
    case _ => s
  }

  function Do<D, L>(g: Program<D, L>, s: State<D, L>, a: Action<D, L>): State<D, L>
    requires Enabled(g, s, a)
  {
    match a
    case Ask(i, step) => DoStep(s, i, step)
    case Go(i) => DoGo(s, i)
    case Release(i) => With(s, i, s.procs[i].(lock := Free))
    case Dispatch(i) =>
      With(s, i, s.procs[i].(pc := Back(s.procs[i].pc.c), state := RUNNING, lock := Held(i)))
    case Prod(i) => With(s, i, s.procs[i].(state := RUNNABLE))
  }

  predicate InitProc<D, L>(g: Program<D, L>, p: Proc<L>) {
    && (p.pc.Running? || p.pc.Gone?) && !g.inside(p.local)
    && p.state.RUNNING? && p.chan.None? && p.lock.Free?
  }

  ghost predicate Init<D, L>(g: Program<D, L>, s: State<D, L>) {
    s.lk.None? && forall i :: 0 <= i < |s.procs| ==> InitProc(g, s.procs[i])
  }

  ghost predicate Moves<D, L>(g: Program<D, L>, s: State<D, L>, a: Action<D, L>, s': State<D, L>) {
    Enabled(g, s, a) && s' == Do(g, s, a)
  }

  ghost predicate Run<D, L>(g: Program<D, L>, states: seq<State<D, L>>, actions: seq<Action<D, L>>) {
    && |states| == |actions| + 1
    && Init(g, states[0])
    && forall i :: 0 <= i < |actions| ==> Moves(g, states[i], actions[i], states[i + 1])
  }

  /** Process `p` sleeps on `c`, or has released `lk` in order to. */
  predicate Asleep<L>(p: Proc<L>, c: Chan) {
    p.pc == Window(c) || p.pc == Marked(c) || p.pc == Swtch(c) || (p.pc == Off(c) && p.state.SLEEPING?)
  }

  // ----- The discipline -----

  /** What one reasons with about a program: `good` holds of the data while `lk` is free,
      `inv` between the steps of a section, `resume` of a process that sleeps. */
  datatype Outline<!D, !L> = Outline(
    good: D -> bool,
    inv: (nat, D, set<Chan>, D, L) -> bool,
    resume: (nat, L) -> bool)

  /** Every channel that this section has unblocked has had its wakeup. */
  ghost predicate Paid<D, L>(g: Program<D, L>, d0: D, quiet: set<Chan>, d: D) {
    forall c: Chan :: g.blocked(d0, c) ==> g.blocked(d, c) || c in quiet
  }

  ghost predicate SameBlocked<D, L>(g: Program<D, L>, d: D, d': D) {
    forall c: Chan :: g.blocked(d, c) <==> g.blocked(d', c)
  }

  ghost predicate Fresh<D(!new), L>(o: Outline<D, L>, p: nat, l: L) {
    forall d :: o.good(d) ==> o.inv(p, d, {}, d, l)
  }

  /** A step taken with `lk` held. */
  ghost predicate InsideOk<D, L>(g: Program<D, L>, o: Outline<D, L>, p: nat, d0: D, q: set<Chan>, d: D, l: L,
                                 step: Step<D, L>) {
    o.inv(p, d0, q, d, l) ==>
      match step
      case Enter(_) => false
      case Set(d', l') => o.inv(p, d0, q, d', l')
      case Lock(_, l') => o.inv(p, d0, q, d, l')
      case Unlock(_, l') => o.inv(p, d0, q, d, l')
      case Spawn(_, child, l') => !g.inside(child) && o.inv(p, d0, q, d, l')
      case Wake(c, l') => o.inv(p, d0, q + {c}, d, l')
      case Sleep(c, l') => g.blocked(d, c) && Paid(g, d0, q, d) && o.good(d) && o.resume(p, l')
      case Leave(_) => Paid(g, d0, q, d) && o.good(d)
      case Depart(_) => Paid(g, d0, q, d) && o.good(d)
  }

  /** A change of the data made without `lk` is invisible to sleepers and to the section
      that process `h` may have open. */
  ghost predicate Stable<D(!new), L(!new)>(o: Outline<D, L>, d: D, d': D) {
    && (o.good(d) ==> o.good(d'))
    && forall h: nat, d0, q, l :: o.inv(h, d0, q, d, l) ==> o.inv(h, d0, q, d', l)
  }

  ghost predicate OutsideOk<D(!new), L(!new)>(g: Program<D, L>, o: Outline<D, L>, p: nat, d: D, step: Step<D, L>) {
    match step
    case Enter(l') => Fresh(o, p, l')
    case Set(d', _) => SameBlocked(g, d, d') && Stable(o, d, d')
    case Lock(_, _) => true
    case Unlock(_, _) => true
    case Spawn(_, child, _) => !g.inside(child)
    case _ => false
  }

  ghost predicate StepOk<D(!new), L(!new)>(g: Program<D, L>, o: Outline<D, L>, p: nat, d: D, l: L, step: Step<D, L>) {
    && (step.Enter? ==> !g.inside(l) && g.inside(step.l))
    && (step.Leave? || step.Depart? ==> g.inside(l) && !g.inside(step.l))
    && (!step.Enter? && !step.Leave? && !step.Depart? ==> g.inside(step.l) == g.inside(l))
    && (if g.inside(l) then forall d0, q :: InsideOk(g, o, p, d0, q, d, l, step) else OutsideOk(g, o, p, d, step))
  }

  ghost predicate Resumes<D(!new), L(!new)>(g: Program<D, L>, o: Outline<D, L>) {
    forall p: nat, l :: o.resume(p, l) ==> g.inside(l) && Fresh(o, p, l)
  }

  /** The program pays every wakeup that it owes before it lets go of `lk`. */
  ghost predicate Disciplined<D(!new), L(!new)>(g: Program<D, L>, o: Outline<D, L>) {
    && (forall p, d, l, step :: g.can(p, d, l, step) ==> StepOk(g, o, p, d, l, step))
    && Resumes(g, o)
  }

  ghost predicate NobodyOn<D, L>(s: State<D, L>, c: Chan) {
    forall j: nat :: j < |s.procs| ==> !Asleep(s.procs[j], c)
  }

  /** A channel without its wakeup is one that nobody sleeps on. */
  ghost predicate OwedToNobody<D, L>(g: Program<D, L>, s: State<D, L>) {
    forall c: Chan :: g.blocked(s.d0, c) ==> g.blocked(s.d, c) || c in s.quiet || NobodyOn(s, c)
  }

  /** What a run needs of one step: it is disciplined, or it lets go of `lk` without a
      wakeup that nobody waits for. */
  ghost predicate Pays<D(!new), L(!new)>(g: Program<D, L>, o: Outline<D, L>, s: State<D, L>, a: Action<D, L>) {
    a.Ask? && a.p < |s.procs| ==>
      var l := s.procs[a.p].local;
      || StepOk(g, o, a.p, s.d, l, a.step)
      || (a.step.Leave? && g.inside(l) && !g.inside(a.step.l) && o.good(s.d) && OwedToNobody(g, s))
  }

  // ----- The invariant -----

  predicate HoldsLk<D, L>(g: Program<D, L>, p: Proc<L>) {
    match p.pc
    case Running => g.inside(p.local)
    case WantOwn(_) => true
    case HaveOwn(_) => true
    case Waking(_, _) => true
    case Looking(_, _) => true
    case _ => false
  }

  predicate OwnLocked(pc: Pc) {
    pc.HaveOwn? || pc.Window? || pc.Marked? || pc.Swtch? || pc.Back? || pc.Cleared? || pc.Departing?
  }

  predicate InSleep(pc: Pc) {
    pc.WantOwn? || (OwnLocked(pc) && !pc.Departing?) || pc.Off? || pc.Relock?
  }

  /** Who holds `lk`, and what the others may rely on when they get it. */
  ghost predicate LkOk<D, L>(g: Program<D, L>, o: Outline<D, L>, s: State<D, L>, i: nat) {
    i < |s.procs| ==>
      && var p := s.procs[i];
      && (HoldsLk(g, p) <==> s.lk == Some(i))
      && (p.pc.Gone? || p.pc.Departing? ==> !g.inside(p.local))
      && (p.pc.Waking? || p.pc.Looking? ==> g.inside(p.local))
      && (InSleep(p.pc) ==> o.resume(i, p.local))
  }

  /** What p->lock protects. */
  ghost predicate OwnOk<D, L>(s: State<D, L>, i: nat) {
    i < |s.procs| ==>
      && var p := s.procs[i];
      && (OwnLocked(p.pc) ==> p.lock == Held(i))
      && (p.pc.Marked? || p.pc.Swtch? || p.pc.Off? ==> p.chan == Some(p.pc.c))
      && (p.state.SLEEPING? ==> p.pc.Swtch? || p.pc.Off?)
  }

  /** wakeup looks at proc[k] with proc[k].lock held. */
  ghost predicate LookOk<D, L>(s: State<D, L>, i: nat) {
    i < |s.procs| && s.procs[i].pc.Looking? ==>
      var k := s.procs[i].pc.k; k < |s.procs| && k != i && s.procs[k].lock == Held(i)
  }

  /** How far the section of process `h` has scanned for channel `c`. */
  function Scanned(pc: Pc, c: Chan): nat {
    if (pc.Waking? || pc.Looking?) && pc.c == c then pc.k else 0
  }

  /** A sleeper's condition still holds, or its wakeup is on its way. */
  ghost predicate Expected<D, L>(g: Program<D, L>, s: State<D, L>, i: nat, c: Chan) {
    i < |s.procs| && Asleep(s.procs[i], c) ==>
      if s.lk.None? then g.blocked(s.d, c)
      else
        && g.blocked(s.d0, c) && c !in s.quiet
        && (s.lk.value < |s.procs| ==> i >= Scanned(s.procs[s.lk.value].pc, c))
  }

  ghost predicate SectionOk<D, L>(g: Program<D, L>, o: Outline<D, L>, s: State<D, L>) {
    if s.lk.None? then o.good(s.d)
    else
      && var h := s.lk.value;
      && h < |s.procs|
      && var p := s.procs[h];
         match p.pc
         case Running => o.inv(h, s.d0, s.quiet, s.d, p.local)
         case Waking(c, _) => o.inv(h, s.d0, s.quiet + {c}, s.d, p.local)
         case Looking(c, _) => o.inv(h, s.d0, s.quiet + {c}, s.d, p.local)
         case WantOwn(c) => g.blocked(s.d, c) && Paid(g, s.d0, s.quiet, s.d) && o.good(s.d)
         case HaveOwn(c) => g.blocked(s.d, c) && Paid(g, s.d0, s.quiet, s.d) && o.good(s.d)
         case _ => false
  }

  ghost predicate Inv<D, L>(g: Program<D, L>, o: Outline<D, L>, s: State<D, L>) {
    && SectionOk(g, o, s)
    && (forall i: nat :: LkOk(g, o, s, i))
    && (forall i: nat :: OwnOk(s, i))
    && (forall i: nat :: LookOk(s, i))
    && (forall i: nat, c: Chan :: Expected(g, s, i, c))
  }

  lemma InitInv<D(!new), L(!new)>(g: Program<D, L>, o: Outline<D, L>, s: State<D, L>)
    requires Init(g, s) && o.good(s.d)
    ensures Inv(g, o, s)
  {
    forall i: nat ensures LkOk(g, o, s, i) && OwnOk(s, i) && LookOk(s, i) {
      if i < |s.procs| { assert InitProc(g, s.procs[i]); }
    }
    forall i: nat, c: Chan ensures Expected(g, s, i, c) {
      if i < |s.procs| { assert InitProc(g, s.procs[i]); }
    }
  }

  // ----- The program's own steps -----

  lemma AskSection<D(!new), L(!new)>(g: Program<D, L>, o: Outline<D, L>, s: State<D, L>, a: Action<D, L>)
    requires Pays(g, o, s, a) && a.Ask? && Enabled(g, s, a) && SectionOk(g, o, s)
    requires forall i: nat :: LkOk(g, o, s, i)
    ensures SectionOk(g, o, Do(g, s, a))
  {
    var i, step := a.p, a.step;
    var l := s.procs[i].local;
    assert LkOk(g, o, s, i);
    if g.inside(l) {
      if StepOk(g, o, i, s.d, l, step) { assert InsideOk(g, o, i, s.d0, s.quiet, s.d, l, step); }
    } else if step.Enter? {
      assert Fresh(o, i, step.l);
    } else if s.lk.Some? {
      var h := s.lk.value;
      assert LkOk(g, o, s, h);
      assert h != i;
    }
  }

  lemma AskLk<D(!new), L(!new)>(g: Program<D, L>, o: Outline<D, L>, s: State<D, L>, a: Action<D, L>, j: nat)
    requires Pays(g, o, s, a) && a.Ask? && Enabled(g, s, a) && SectionOk(g, o, s)
    requires forall i: nat :: LkOk(g, o, s, i)
    ensures LkOk(g, o, Do(g, s, a), j)
  {
    var i, step := a.p, a.step;
    var l := s.procs[i].local;
    assert LkOk(g, o, s, i) && LkOk(g, o, s, j);
    if StepOk(g, o, i, s.d, l, step) && g.inside(l) {
      assert InsideOk(g, o, i, s.d0, s.quiet, s.d, l, step);
    }
  }

  lemma AskOwn<D, L>(g: Program<D, L>, s: State<D, L>, a: Action<D, L>, j: nat)
    requires a.Ask? && Enabled(g, s, a)
    requires forall i: nat :: OwnOk(s, i)
    ensures OwnOk(Do(g, s, a), j)
  {
    assert OwnOk(s, a.p) && OwnOk(s, j);
  }

  lemma AskLook<D, L>(g: Program<D, L>, s: State<D, L>, a: Action<D, L>, j: nat)
    requires a.Ask? && Enabled(g, s, a)
    requires forall i: nat :: LookOk(s, i)
    ensures LookOk(Do(g, s, a), j)
  {
    assert LookOk(s, j);
  }

  lemma AskExpected<D(!new), L(!new)>(g: Program<D, L>, o: Outline<D, L>, s: State<D, L>, a: Action<D, L>,
                                      j: nat, c: Chan)
    requires Pays(g, o, s, a) && a.Ask? && Enabled(g, s, a) && Inv(g, o, s)
    ensures Expected(g, Do(g, s, a), j, c)
  {
    var i, step := a.p, a.step;
    var l := s.procs[i].local;
    assert LkOk(g, o, s, i);
    assert Expected(g, s, j, c);
    if StepOk(g, o, i, s.d, l, step) && g.inside(l) {
      assert InsideOk(g, o, i, s.d0, s.quiet, s.d, l, step);
    }
  }

  // ----- The steps inside sleep, wakeup and exit -----

  lemma GoSection<D(!new), L(!new)>(g: Program<D, L>, o: Outline<D, L>, s: State<D, L>, a: Action<D, L>)
    requires Resumes(g, o) && !a.Ask? && Enabled(g, s, a) && SectionOk(g, o, s)
    requires forall i: nat :: LkOk(g, o, s, i)
    ensures SectionOk(g, o, Do(g, s, a))
  {
    assert LkOk(g, o, s, a.p);
    if s.lk.Some? { assert LkOk(g, o, s, s.lk.value); }
  }

  lemma GoLk<D(!new), L(!new)>(g: Program<D, L>, o: Outline<D, L>, s: State<D, L>, a: Action<D, L>, j: nat)
    requires Resumes(g, o) && !a.Ask? && Enabled(g, s, a)
    requires forall i: nat :: LkOk(g, o, s, i)
    ensures LkOk(g, o, Do(g, s, a), j)
  {
    assert LkOk(g, o, s, a.p) && LkOk(g, o, s, j);
  }

  lemma GoOwn<D, L>(g: Program<D, L>, s: State<D, L>, a: Action<D, L>, j: nat)
    requires !a.Ask? && Enabled(g, s, a) && LookOk(s, a.p)
    requires forall i: nat :: OwnOk(s, i)
    ensures OwnOk(Do(g, s, a), j)
  {
    assert OwnOk(s, a.p) && OwnOk(s, j);
  }

  lemma GoLook<D, L>(g: Program<D, L>, s: State<D, L>, a: Action<D, L>, j: nat)
    requires !a.Ask? && Enabled(g, s, a) && OwnOk(s, a.p)
    requires forall i: nat :: LookOk(s, i)
    ensures LookOk(Do(g, s, a), j)
  {
    assert LookOk(s, a.p) && LookOk(s, j);
  }

  lemma GoExpected<D(!new), L(!new)>(g: Program<D, L>, o: Outline<D, L>, s: State<D, L>, a: Action<D, L>,
                                     j: nat, c: Chan)
    requires !a.Ask? && Enabled(g, s, a) && Inv(g, o, s)
    ensures Expected(g, Do(g, s, a), j, c)
  {
    assert LkOk(g, o, s, a.p) && OwnOk(s, a.p) && LookOk(s, a.p) && OwnOk(s, j);
    assert Expected(g, s, j, c);
  }

  lemma StepInv<D(!new), L(!new)>(g: Program<D, L>, o: Outline<D, L>, s: State<D, L>, a: Action<D, L>)
    requires Resumes(g, o) && Pays(g, o, s, a) && Enabled(g, s, a) && Inv(g, o, s)
    ensures Inv(g, o, Do(g, s, a))
  {
    var s' := Do(g, s, a);
    if a.Ask? {
      AskSection(g, o, s, a);
      forall j: nat ensures LkOk(g, o, s', j) { AskLk(g, o, s, a, j); }
      forall j: nat ensures OwnOk(s', j) { AskOwn(g, s, a, j); }
      forall j: nat ensures LookOk(s', j) { AskLook(g, s, a, j); }
      forall j: nat, c: Chan ensures Expected(g, s', j, c) { AskExpected(g, o, s, a, j, c); }
    } else {
      GoSection(g, o, s, a);
      forall j: nat ensures LkOk(g, o, s', j) { GoLk(g, o, s, a, j); }
      forall j: nat ensures OwnOk(s', j) { GoOwn(g, s, a, j); }
      forall j: nat ensures LookOk(s', j) { GoLook(g, s, a, j); }
      forall j: nat, c: Chan ensures Expected(g, s', j, c) { GoExpected(g, o, s, a, j, c); }
    }
  }

  lemma {:induction false} RunInv<D(!new), L(!new)>(g: Program<D, L>, o: Outline<D, L>, states: seq<State<D, L>>,
                                                   actions: seq<Action<D, L>>, i: nat)
    requires Disciplined(g, o) && Run(g, states, actions) && o.good(states[0].d) && i < |states|
    ensures Inv(g, o, states[i])
  {
    if i == 0 {
      InitInv(g, o, states[0]);
    } else {
      RunInv(g, o, states, actions, i - 1);
      assert Moves(g, states[i - 1], actions[i - 1], states[i]);
      StepInv(g, o, states[i - 1], actions[i - 1]);
    }
  }

  // ----- The theorem -----

  /** No wakeup is lost: in every interleaving, whenever the condition lock is free, every
      process that sleeps on a channel or is on its way to sleep there still has to wait. */
  lemma NoLostWakeup<D(!new), L(!new)>(g: Program<D, L>, o: Outline<D, L>, states: seq<State<D, L>>,
                                       actions: seq<Action<D, L>>, i: nat, p: nat, c: Chan)
    requires Disciplined(g, o) && Run(g, states, actions) && o.good(states[0].d)
    requires i < |states| && states[i].lk.None? && p < |states[i].procs| && Asleep(states[i].procs[p], c)
    ensures g.blocked(states[i].d, c)
  {
    RunInv(g, o, states, actions, i);
    assert Expected(g, states[i], p, c);
  }

  // ----- Properties of the program's own data -----

  function Locals<D, L>(s: State<D, L>): (ls: seq<L>)
    ensures |ls| == |s.procs| && forall i :: 0 <= i < |ls| ==> ls[i] == s.procs[i].local
  {
    seq(|s.procs|, i requires 0 <= i < |s.procs| => s.procs[i].local)
  }

  function DataAfter<D, L>(d: D, step: Step<D, L>): D {
    if step.Set? then step.d else d
  }

  function LocalsAfter<D, L>(ls: seq<L>, p: nat, step: Step<D, L>): seq<L>
    requires p < |ls| && (step.Spawn? ==> step.k < |ls|)
  {
    if step.Spawn? then ls[p := step.l][step.k := step.child] else ls[p := step.l]
  }

  /** While `p` is in its section, the only others inside one are asleep in the middle of it. */
  ghost predicate Alone<D, L>(g: Program<D, L>, o: Outline<D, L>, ls: seq<L>, p: nat) {
    p < |ls| && g.inside(ls[p]) ==>
      forall q :: 0 <= q < |ls| && q != p && g.inside(ls[q]) ==> o.resume(q, ls[q])
  }

  /** Every step of the program keeps `inv`, which relates the data and all control states. */
  ghost predicate Keeps<D(!new), L(!new)>(g: Program<D, L>, o: Outline<D, L>, inv: (D, seq<L>) -> bool) {
    forall p: nat, d, ls: seq<L>, step ::
      inv(d, ls) && p < |ls| && Alone(g, o, ls, p) && g.can(p, d, ls[p], step) &&
      (step.Spawn? ==> step.k < |ls| && step.k != p) ==>
        inv(DataAfter(d, step), LocalsAfter(ls, p, step))
  }

  lemma AskAlone<D(!new), L(!new)>(g: Program<D, L>, o: Outline<D, L>, s: State<D, L>, a: Action<D, L>)
    requires Inv(g, o, s) && a.Ask? && Enabled(g, s, a)
    ensures Alone(g, o, Locals(s), a.p)
  {
    var ls := Locals(s);
    assert LkOk(g, o, s, a.p);
    forall q | 0 <= q < |ls| && q != a.p && g.inside(ls[a.p]) && g.inside(ls[q]) ensures o.resume(q, ls[q]) {
      assert LkOk(g, o, s, q);
    }
  }

  lemma AskLocals<D(!new), L(!new)>(g: Program<D, L>, s: State<D, L>, a: Action<D, L>)
    requires Enabled(g, s, a)
    ensures a.Ask? ==> Locals(Do(g, s, a)) == LocalsAfter(Locals(s), a.p, a.step)
    ensures a.Ask? ==> Do(g, s, a).d == DataAfter(s.d, a.step)
    ensures !a.Ask? ==> Locals(Do(g, s, a)) == Locals(s) && Do(g, s, a).d == s.d
  {
  }

  lemma {:induction false} RunKeeps<D(!new), L(!new)>(g: Program<D, L>, o: Outline<D, L>, inv: (D, seq<L>) -> bool,
                                                     states: seq<State<D, L>>, actions: seq<Action<D, L>>, i: nat)
    requires Disciplined(g, o) && Keeps(g, o, inv) && Run(g, states, actions) && i < |states|
    requires o.good(states[0].d) && inv(states[0].d, Locals(states[0]))
    ensures inv(states[i].d, Locals(states[i]))
  {
    if i > 0 {
      RunKeeps(g, o, inv, states, actions, i - 1);
      RunInv(g, o, states, actions, i - 1);
      var s, a := states[i - 1], actions[i - 1];
      assert Moves(g, s, a, states[i]);
      AskLocals(g, s, a);
      if a.Ask? {
        AskAlone(g, o, s, a);
        assert g.can(a.p, s.d, Locals(s)[a.p], a.step);
      }
    }
  }

  /** What a step of the program in process `i` does to process `j`. */
  predicate Effect<D, L(==)>(s: State<D, L>, s': State<D, L>, i: nat, step: Step<D, L>, j: nat) {
    j < |s.procs| == |s'.procs| ==>
      && var p, p' := s.procs[j], s'.procs[j];
      && p'.local == (if step.Spawn? && j == step.k then step.child else if j == i then step.l else p.local)
      && (p'.pc.Gone? <==> p.pc.Gone? && !(step.Spawn? && j == step.k))
      && (p'.pc.Running? <==> if step.Spawn? && j == step.k then true
                              else if j == i then !step.Sleep? && !step.Wake? && !step.Depart? else p.pc.Running?)
      && (p'.pc.Departing? <==> if j == i then step.Depart? else p.pc.Departing?)
      && p'.lock == (if step.Lock? && j == step.k then Held(i)
                     else if step.Unlock? && j == step.k then Free else p.lock)
  }

  lemma AskEffect<D, L>(g: Program<D, L>, s: State<D, L>, a: Action<D, L>, j: nat)
    requires a.Ask? && Enabled(g, s, a)
    ensures |Do(g, s, a).procs| == |s.procs| && Do(g, s, a).d == DataAfter(s.d, a.step)
    ensures Effect(s, Do(g, s, a), a.p, a.step, j)
  {
  }

  /** What a step inside sleep, wakeup, exit or the scheduler does to process `j`. */
  predicate Kept<D, L(==)>(s: State<D, L>, s': State<D, L>, j: nat) {
    j < |s.procs| == |s'.procs| ==>
      && var p, p' := s.procs[j], s'.procs[j];
      && p'.local == p.local
      && (p.pc.Running? ==> p'.pc.Running?)
      && (p'.pc.Gone? ==> p.pc.Gone? || p.pc.Departing?)
      && (p'.pc.Departing? ==> p.pc.Departing?)
      && (p.pc.Departing? && !p'.pc.Departing? ==> p'.pc.Gone?)
      && (p.pc.Gone? ==> p'.pc.Gone?)
      && (p.lock.Held? && p.lock.who < |s.procs| && s.procs[p.lock.who].pc.Running? ==> p'.lock == p.lock)
  }

  lemma GoKept<D, L>(g: Program<D, L>, s: State<D, L>, a: Action<D, L>, j: nat)
    requires !a.Ask? && Enabled(g, s, a) && LookOk(s, a.p) && OwnOk(s, a.p)
    ensures |Do(g, s, a).procs| == |s.procs| && Do(g, s, a).d == s.d
    ensures Kept(s, Do(g, s, a), j)
  {
  }

  /** Process `p` is in sleep on behalf of channel `c`. */
  predicate SleepsFor<L>(p: Proc<L>, c: Chan) {
    || p.pc == WantOwn(c) || p.pc == HaveOwn(c) || p.pc == Window(c)
    || p.pc == Marked(c) || p.pc == Swtch(c) || p.pc == Off(c)
  }

  lemma SleepSource<D, L>(g: Program<D, L>, s: State<D, L>, a: Action<D, L>, j: nat, c: Chan)
    requires Enabled(g, s, a) && j < |s.procs| && SleepsFor(Do(g, s, a).procs[j], c)
    ensures SleepsFor(s.procs[j], c) || (a.Ask? && a.p == j && a.step.Sleep? && a.step.c == c)
  {
  }
}
