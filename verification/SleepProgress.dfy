/** sleep and wakeup themselves: what p->lock, p->state and p->chan are while a process is
    inside them, and that no process is ever stuck there. */
module SleepProgress {
  import opened Common
  import opened SleepWakeup

  // ----- p->state and p->chan -----

  /** p->chan is set exactly from the window to the return from the scheduler, p->state is SLEEPING
      or RUNNABLE exactly while the process is switched away, or about to be. */
  predicate FieldsOk<L(==)>(p: Proc<L>) {
    && (match p.pc
        case Marked(c) => p.chan == Some(c)
        case Swtch(c) => p.chan == Some(c)
        case Off(c) => p.chan == Some(c)
        case Back(c) => p.chan == Some(c)
        case _ => p.chan.None?)
    && (match p.pc
        case Swtch(_) => p.state.SLEEPING?
        case Off(_) => p.state.SLEEPING? || p.state.RUNNABLE?
        case _ => p.state.RUNNING?)
  }

  lemma AskFields<D, L>(g: Program<D, L>, s: State<D, L>, a: Action<D, L>, j: nat)
    requires a.Ask? && Enabled(g, s, a) && j < |s.procs| && FieldsOk(s.procs[j]) && FieldsOk(s.procs[a.p])
    ensures |Do(g, s, a).procs| == |s.procs| && FieldsOk(Do(g, s, a).procs[j])
  {
  }

  lemma GoFields<D, L>(g: Program<D, L>, s: State<D, L>, a: Action<D, L>, j: nat)
    requires !a.Ask? && Enabled(g, s, a) && j < |s.procs| && FieldsOk(s.procs[j]) && FieldsOk(s.procs[a.p])
    requires OwnOk(s, j) && OwnOk(s, a.p) && LookOk(s, a.p)
    ensures |Do(g, s, a).procs| == |s.procs| && FieldsOk(Do(g, s, a).procs[j])
  {
  }

  lemma StepFields<D(!new), L(!new)>(g: Program<D, L>, o: Outline<D, L>, s: State<D, L>, a: Action<D, L>, j: nat)
    requires Enabled(g, s, a) && Inv(g, o, s) && j < |s.procs| && FieldsOk(s.procs[j]) && FieldsOk(s.procs[a.p])
    ensures |Do(g, s, a).procs| == |s.procs| && FieldsOk(Do(g, s, a).procs[j])
  {
    assert OwnOk(s, j) && OwnOk(s, a.p) && LookOk(s, a.p);
    if a.Ask? { AskFields(g, s, a, j); } else { GoFields(g, s, a, j); }
  }

  lemma RunSize<D, L>(g: Program<D, L>, states: seq<State<D, L>>, actions: seq<Action<D, L>>, i: nat)
    requires Run(g, states, actions) && i < |actions|
    ensures |states| == |actions| + 1 && Moves(g, states[i], actions[i], states[i + 1])
    ensures |states[i + 1].procs| == |states[i].procs|
  {
    assert Moves(g, states[i], actions[i], states[i + 1]);
  }

  /** In every run of every disciplined program. */
  lemma {:induction false} FieldsAreRight<D(!new), L(!new)>(g: Program<D, L>, o: Outline<D, L>,
      states: seq<State<D, L>>, actions: seq<Action<D, L>>, i: nat, p: nat)
    requires Disciplined(g, o) && Run(g, states, actions) && o.good(states[0].d)
    requires i < |states| && p < |states[i].procs|
    ensures FieldsOk(states[i].procs[p])
  {
    if i == 0 {
      assert InitProc(g, states[0].procs[p]);
    } else {
      var s, a := states[i - 1], actions[i - 1];
      RunSize(g, states, actions, i - 1);
      RunInv(g, o, states, actions, i - 1);
      FieldsAreRight(g, o, states, actions, i - 1, p);
      FieldsAreRight(g, o, states, actions, i - 1, a.p);
      StepFields(g, o, s, a, p);
    }
  }

  // ----- Who holds p->lock -----

  /** Which p->lock the program holds at a control state. */
  type Grip<!L> = (nat, L) -> Option<nat>

  predicate GripStep<D, L(!new)>(grip: Grip<L>, p: nat, l: L, step: Step<D, L>) {
    match step
    case Lock(k, l') => grip(p, l).None? && grip(p, l') == Some(k)
    case Unlock(k, l') => grip(p, l) == Some(k) && grip(p, l').None?
    case Depart(l') => grip(p, l) == Some(p) && grip(p, l').None?
    case Sleep(_, l') => grip(p, l).None? && grip(p, l').None?
    case Wake(_, l') => grip(p, l).None? && grip(p, l').None?
    case Spawn(k, child, l') => grip(p, l) == Some(k) == grip(p, l') && grip(k, child).None?
    case Enter(l') => grip(p, l') == grip(p, l)
    case Leave(l') => grip(p, l') == grip(p, l)
    case Set(_, l') => grip(p, l') == grip(p, l)
  }

  /** The program takes and releases p->locks as `grip` says. */
  ghost predicate Handles<D(!new), L(!new)>(g: Program<D, L>, grip: Grip<L>) {
    forall p: nat, d, l, step :: g.can(p, d, l, step) ==> GripStep(grip, p, l, step)
  }

  /** Process `i` has reason to hold the lock of process `k`: it is its own and it is inside sleep,
      its wakeup looks at `k`, or the program says so. */
  predicate Holder<L(!new)>(grip: Grip<L>, i: nat, p: Proc<L>, k: nat) {
    || (i == k && OwnLocked(p.pc)) || (p.pc.Looking? && p.pc.k == k) || (p.pc.Running? && grip(i, p.local) == Some(k))
  }

  /** Whoever holds a p->lock has reason to; the scheduler has it only for a process that has
      just switched away. */
  predicate LockOk<D, L(!new)>(grip: Grip<L>, s: State<D, L>, k: nat) {
    k < |s.procs| ==>
      match s.procs[k].lock
      case Free => true
      case Scheduler => s.procs[k].pc.Off? || s.procs[k].pc.Gone?
      case Held(i) => i < |s.procs| && Holder(grip, i, s.procs[i], k)
  }

  predicate HandOk<D, L(!new)>(grip: Grip<L>, s: State<D, L>, i: nat) {
    i < |s.procs| && grip(i, s.procs[i].local).Some? ==>
      && s.procs[i].pc.Running?
      && var k := grip(i, s.procs[i].local).value;
         k < |s.procs| && s.procs[k].lock == Held(i)
  }

  ghost predicate LocksOk<D, L(!new)>(grip: Grip<L>, s: State<D, L>) {
    && (forall k: nat :: LockOk(grip, s, k)) && (forall i: nat :: HandOk(grip, s, i))
    && (forall i: nat :: OwnOk(s, i)) && forall i: nat :: LookOk(s, i)
  }

  /** A step changes where no other process stands, but for a new one. */
  predicate SamePlace<D, L(==)>(s: State<D, L>, t: State<D, L>, j: nat) {
    j < |s.procs| == |t.procs| ==> t.procs[j].pc == s.procs[j].pc && t.procs[j].local == s.procs[j].local
  }

  lemma Others<D, L>(g: Program<D, L>, s: State<D, L>, a: Action<D, L>, j: nat)
    requires Enabled(g, s, a) && j != a.p && !(a.Ask? && a.step.Spawn? && a.step.k == j)
    ensures |Do(g, s, a).procs| == |s.procs| && SamePlace(s, Do(g, s, a), j)
  {
  }

  /** Who gets and who loses the lock of process `k`. */
  lemma GoLocks<D, L>(g: Program<D, L>, s: State<D, L>, a: Action<D, L>, k: nat)
    requires !a.Ask? && Enabled(g, s, a) && k < |s.procs| && LookOk(s, a.p) && OwnOk(s, a.p)
    ensures var l, l', pc := s.procs[k].lock, Do(g, s, a).procs[k].lock, s.procs[a.p].pc;
      || l' == l || (l' == Held(a.p) && l.Free?)
      || (l'.Scheduler? && k == a.p && (pc.Swtch? || pc.Departing?) && a.Go?)
      || (l'.Free? && (l == Held(a.p) || a.Release?))
  {
  }

  /** And still has reason to hold it. */
  lemma GoHolder<D, L(!new)>(g: Program<D, L>, grip: Grip<L>, s: State<D, L>, a: Action<D, L>, k: nat)
    requires !a.Ask? && Enabled(g, s, a) && k < |s.procs| && LookOk(s, a.p) && OwnOk(s, a.p)
    requires s.procs[k].lock == Held(a.p) ==> Holder(grip, a.p, s.procs[a.p], k)
    requires Do(g, s, a).procs[k].lock == Held(a.p)
    ensures Holder(grip, a.p, Do(g, s, a).procs[a.p], k)
  {
  }

  lemma GoScheduler<D, L>(g: Program<D, L>, s: State<D, L>, a: Action<D, L>, k: nat)
    requires !a.Ask? && Enabled(g, s, a) && k < |s.procs| && LookOk(s, a.p) && OwnOk(s, a.p)
    requires s.procs[k].lock.Scheduler? ==> s.procs[k].pc.Off? || s.procs[k].pc.Gone?
    ensures Do(g, s, a).procs[k].lock.Scheduler? ==> Do(g, s, a).procs[k].pc.Off? || Do(g, s, a).procs[k].pc.Gone?
  {
  }

  lemma GoLock<D(!new), L(!new)>(g: Program<D, L>, grip: Grip<L>, s: State<D, L>, a: Action<D, L>, k: nat)
    requires !a.Ask? && Enabled(g, s, a) && LocksOk(grip, s)
    ensures LockOk(grip, Do(g, s, a), k)
  {
    assert LockOk(grip, s, k) && OwnOk(s, a.p) && LookOk(s, a.p);
    if k < |s.procs| {
      GoLocks(g, s, a, k);
      GoScheduler(g, s, a, k);
      var l := Do(g, s, a).procs[k].lock;
      if l == Held(a.p) {
        GoHolder(g, grip, s, a, k);
      } else if l.Held? {
        Others(g, s, a, l.who);
      }
    }
  }

  lemma GoHand<D(!new), L(!new)>(g: Program<D, L>, grip: Grip<L>, s: State<D, L>, a: Action<D, L>, i: nat)
    requires !a.Ask? && Enabled(g, s, a) && LocksOk(grip, s)
    ensures HandOk(grip, Do(g, s, a), i)
  {
    assert HandOk(grip, s, i) && HandOk(grip, s, a.p) && OwnOk(s, a.p) && LookOk(s, a.p);
    if i < |s.procs| && i != a.p && grip(i, s.procs[i].local).Some? {
      var k := grip(i, s.procs[i].local).value;
      Others(g, s, a, i);
      GoLocks(g, s, a, k);
    }
  }

  lemma AskLocks<D, L>(g: Program<D, L>, s: State<D, L>, a: Action<D, L>, k: nat)
    requires a.Ask? && Enabled(g, s, a) && k < |s.procs|
    ensures Do(g, s, a).procs[k].lock ==
              if a.step.Lock? && a.step.k == k then Held(a.p)
              else if a.step.Unlock? && a.step.k == k then Free else s.procs[k].lock
    ensures a.step.Lock? ==> s.procs[a.step.k].lock.Free?
    ensures a.step.Unlock? ==> s.procs[a.step.k].lock == Held(a.p)
    ensures a.step.Spawn? ==> a.step.k != a.p && s.procs[a.step.k].pc.Gone?
    ensures a.step.Depart? ==> s.procs[a.p].lock == Held(a.p)
  {
  }

  /** Where the process itself stands afterwards, and the one that it starts. */
  lemma AskPlace<D, L>(g: Program<D, L>, s: State<D, L>, a: Action<D, L>)
    requires a.Ask? && Enabled(g, s, a)
    ensures var t, step := Do(g, s, a), a.step;
      && |t.procs| == |s.procs| && t.procs[a.p].local == step.l && s.procs[a.p].pc.Running?
      && (t.procs[a.p].pc.Running? <==> !step.Sleep? && !step.Wake? && !step.Depart?)
      && (step.Depart? ==> t.procs[a.p].pc.Departing?)
      && (step.Spawn? ==> t.procs[step.k].pc.Running? && t.procs[step.k].local == step.child)
  {
  }

  lemma AskLock<D(!new), L(!new)>(g: Program<D, L>, grip: Grip<L>, s: State<D, L>, a: Action<D, L>, k: nat)
    requires a.Ask? && Enabled(g, s, a) && LocksOk(grip, s) && GripStep(grip, a.p, s.procs[a.p].local, a.step)
    ensures LockOk(grip, Do(g, s, a), k)
  {
    assert LockOk(grip, s, k) && HandOk(grip, s, a.p);
    AskPlace(g, s, a);
    if k < |s.procs| {
      AskLocks(g, s, a, k);
      if !(a.step.Spawn? && a.step.k == k) && k != a.p { Others(g, s, a, k); }
      var l := s.procs[k].lock;
      if l.Held? && l.who != a.p && !(a.step.Spawn? && a.step.k == l.who) { Others(g, s, a, l.who); }
    }
  }

  lemma AskOwnHand<D(!new), L(!new)>(g: Program<D, L>, grip: Grip<L>, s: State<D, L>, a: Action<D, L>)
    requires a.Ask? && Enabled(g, s, a) && HandOk(grip, s, a.p)
    requires GripStep(grip, a.p, s.procs[a.p].local, a.step)
    ensures HandOk(grip, Do(g, s, a), a.p)
  {
    AskPlace(g, s, a);
    var h := grip(a.p, a.step.l);
    if h.Some? {
      assert h.value < |s.procs|;
      AskLocks(g, s, a, h.value);
    }
  }

  lemma AskOtherHand<D(!new), L(!new)>(g: Program<D, L>, grip: Grip<L>, s: State<D, L>, a: Action<D, L>, i: nat)
    requires a.Ask? && Enabled(g, s, a) && HandOk(grip, s, i) && i != a.p
    requires GripStep(grip, a.p, s.procs[a.p].local, a.step)
    ensures HandOk(grip, Do(g, s, a), i)
  {
    AskPlace(g, s, a);
    if i < |s.procs| && !(a.step.Spawn? && a.step.k == i) && grip(i, s.procs[i].local).Some? {
      Others(g, s, a, i);
      AskLocks(g, s, a, grip(i, s.procs[i].local).value);
    } else if i < |s.procs| && !(a.step.Spawn? && a.step.k == i) {
      Others(g, s, a, i);
    }
  }

  lemma {:induction false} RunLocks<D(!new), L(!new)>(g: Program<D, L>, o: Outline<D, L>, grip: Grip<L>,
      states: seq<State<D, L>>, actions: seq<Action<D, L>>, i: nat)
    requires Disciplined(g, o) && Handles(g, grip) && Run(g, states, actions) && o.good(states[0].d) && i < |states|
    requires forall p: nat :: p < |states[0].procs| ==> grip(p, states[0].procs[p].local).None?
    ensures LocksOk(grip, states[i])
  {
    RunInv(g, o, states, actions, i);
    if i == 0 {
      forall p: nat ensures LockOk(grip, states[0], p) {
        assert p < |states[0].procs| ==> InitProc(g, states[0].procs[p]);
      }
    } else {
      var s, a := states[i - 1], actions[i - 1];
      assert Moves(g, s, a, states[i]);
      RunLocks(g, o, grip, states, actions, i - 1);
      StepLocks(g, grip, s, a);
    }
  }

  lemma StepLocks<D(!new), L(!new)>(g: Program<D, L>, grip: Grip<L>, s: State<D, L>, a: Action<D, L>)
    requires Enabled(g, s, a) && LocksOk(grip, s) && Handles(g, grip)
    ensures (forall k: nat :: LockOk(grip, Do(g, s, a), k)) && forall i: nat :: HandOk(grip, Do(g, s, a), i)
  {
    if a.Ask? { assert g.can(a.p, s.d, s.procs[a.p].local, a.step); }
    forall k: nat ensures LockOk(grip, Do(g, s, a), k) && HandOk(grip, Do(g, s, a), k) {
      if a.Ask? {
        AskLock(g, grip, s, a, k);
        assert HandOk(grip, s, k);
        if k == a.p { AskOwnHand(g, grip, s, a); } else { AskOtherHand(g, grip, s, a, k); }
      } else {
        GoLock(g, grip, s, a, k);
        GoHand(g, grip, s, a, k);
      }
    }
  }

  /** In every run of a disciplined program: whoever holds a p->lock has reason to, and the
      scheduler holds it only for a process that has just switched away. */
  lemma LocksAreRight<D(!new), L(!new)>(g: Program<D, L>, o: Outline<D, L>, grip: Grip<L>,
      states: seq<State<D, L>>, actions: seq<Action<D, L>>, i: nat, k: nat)
    requires Disciplined(g, o) && Handles(g, grip) && Run(g, states, actions) && o.good(states[0].d) && i < |states|
    requires forall p: nat :: p < |states[0].procs| ==> grip(p, states[0].procs[p].local).None?
    requires k < |states[i].procs|
    ensures match states[i].procs[k].lock
            case Free => true
            case Scheduler => states[i].procs[k].pc.Off? || states[i].procs[k].pc.Gone?
            case Held(h) => h < |states[i].procs| && Holder(grip, h, states[i].procs[h], k)
  {
    RunLocks(g, o, grip, states, actions, i);
    assert LockOk(grip, states[i], k);
  }

  // ----- Nobody is stuck inside sleep or wakeup -----

  /** How many steps a process is from the end of sleep or wakeup, of `n` processes. */
  function Togo(pc: Pc, n: nat): nat {
    match pc
    case WantOwn(_) => 7
    case HaveOwn(_) => 6
    case Window(_) => 5
    case Marked(_) => 4
    case Swtch(_) => 3
    case Back(_) => 3
    case Cleared => 2
    case Relock => 1
    case Waking(_, k) => if k < n then 2 * (n - k) + 1 else 1
    case Looking(_, k) => if k < n then 2 * (n - k) else 2
    case Departing => 2
    case _ => 0
  }

  function Weight<L>(p: Proc<L>, n: nat): nat {
    Togo(p.pc, n) + if p.lock.Scheduler? then 1 else 0
  }

  function Left<L>(procs: seq<Proc<L>>, n: nat): nat {
    if procs == [] then 0 else Weight(procs[0], n) + Left(procs[1..], n)
  }

  lemma {:induction false} LeftUpdate<L>(procs: seq<Proc<L>>, i: nat, p: Proc<L>, n: nat)
    requires i < |procs|
    ensures Left(procs[i := p], n) == Left(procs, n) - Weight(procs[i], n) + Weight(p, n)
  {
    if i == 0 {
      assert procs[i := p][1..] == procs[1..];
    } else {
      assert procs[i := p][1..] == procs[1..][i - 1 := p];
      LeftUpdate(procs[1..], i - 1, p, n);
    }
  }

  /** A process that can always take its next step inside sleep or wakeup. */
  predicate Ready(pc: Pc) {
    OwnLocked(pc) || pc.Looking?
  }

  /** Out of sleep and wakeup, switched away, or waiting for a lock that a process outside of both
      holds: the condition lock, or a p->lock that the program has. */
  predicate Rests<D, L(!new)>(grip: Grip<L>, s: State<D, L>, i: nat) {
    i < |s.procs| ==>
      match s.procs[i].pc
      case Running => true
      case Off(_) => s.procs[i].lock != Scheduler
      case Gone => s.procs[i].lock != Scheduler
      case Relock => s.lk.Some?
      case WantOwn(_) => InUse(grip, s, i)
      case Waking(_, k) => k < |s.procs| && InUse(grip, s, k)
      case _ => false
  }

  /** A running process of the program holds the lock of process `k`. */
  predicate InUse<D, L(!new)>(grip: Grip<L>, s: State<D, L>, k: nat) {
    && k < |s.procs| && s.procs[k].lock.Held? && s.procs[k].lock.who < |s.procs|
    && var h := s.procs[k].lock.who;
       s.procs[h].pc.Running? && grip(h, s.procs[h].local) == Some(k)
  }

  /** The step touches one process, or also the one that wakeup looks at, but not its weight. */
  lemma GoTouches<D, L>(g: Program<D, L>, s: State<D, L>, a: Action<D, L>)
    requires (a.Go? || a.Release?) && Enabled(g, s, a) && LookOk(s, a.p)
    ensures var t, i, pc, n := Do(g, s, a), a.p, s.procs[a.p].pc, |s.procs|;
      && |t.procs| == n
      && if a.Go? && (pc.Looking? || (pc.Waking? && pc.k < n && pc.k != i))
         then pc.k < n && t.procs == s.procs[i := t.procs[i]][pc.k := t.procs[pc.k]] && pc.k != i &&
              Weight(t.procs[pc.k], n) == Weight(s.procs[pc.k], n)
         else t.procs == s.procs[i := t.procs[i]]
  {
  }

  lemma GoWeight<D, L>(g: Program<D, L>, s: State<D, L>, a: Action<D, L>)
    requires (a.Go? || a.Release?) && Enabled(g, s, a) && OwnOk(s, a.p) && LookOk(s, a.p)
    requires s.procs[a.p].lock.Scheduler? ==> s.procs[a.p].pc.Off? || s.procs[a.p].pc.Gone?
    ensures a.p < |Do(g, s, a).procs| && Weight(Do(g, s, a).procs[a.p], |s.procs|) < Weight(s.procs[a.p], |s.procs|)
  {
  }

  lemma GoLess<D, L>(g: Program<D, L>, s: State<D, L>, a: Action<D, L>)
    requires (a.Go? || a.Release?) && Enabled(g, s, a) && OwnOk(s, a.p) && LookOk(s, a.p)
    requires s.procs[a.p].lock.Scheduler? ==> s.procs[a.p].pc.Off? || s.procs[a.p].pc.Gone?
    ensures Left(Do(g, s, a).procs, |s.procs|) < Left(s.procs, |s.procs|) && |Do(g, s, a).procs| == |s.procs|
  {
    var i, n, ps := a.p, |s.procs|, Do(g, s, a).procs;
    var pc := s.procs[i].pc;
    GoTouches(g, s, a);
    GoWeight(g, s, a);
    LeftUpdate(s.procs, i, ps[i], n);
    if a.Go? && (pc.Looking? || (pc.Waking? && pc.k < n && pc.k != i)) {
      LeftUpdate(s.procs[i := ps[i]], pc.k, ps[pc.k], n);
    }
  }

  /** Somebody who does not rest, and a step that is possible. */
  lemma NextToRest<D(!new), L(!new)>(g: Program<D, L>, grip: Grip<L>, s: State<D, L>, i: nat) returns (a: Action<D, L>)
    requires LocksOk(grip, s) && i < |s.procs| && !Rests(grip, s, i)
    ensures (a.Go? || a.Release?) && Enabled(g, s, a)
    ensures Left(Do(g, s, a).procs, |s.procs|) < Left(s.procs, |s.procs|) && |Do(g, s, a).procs| == |s.procs|
  {
    var pc := s.procs[i].pc;
    var want := if pc.WantOwn? then i else if pc.Waking? && pc.k < |s.procs| && pc.k != i then pc.k else |s.procs|;
    assert LockOk(grip, s, want) && LookOk(s, i) && LockOk(grip, s, i);
    if want < |s.procs| && s.procs[want].lock.Scheduler? {
      a := Release(want);
    } else if want < |s.procs| && s.procs[want].lock.Held? {
      a := Go(s.procs[want].lock.who);
    } else if pc.Off? || pc.Gone? {
      a := Release(i);
    } else {
      a := Go(i);
    }
    assert LookOk(s, a.p) && OwnOk(s, a.p) && LockOk(grip, s, a.p);
    GoLess(g, s, a);
  }

  lemma Extend<D, L>(g: Program<D, L>, states: seq<State<D, L>>, actions: seq<Action<D, L>>, a: Action<D, L>)
    requires Run(g, states, actions) && Enabled(g, states[|actions|], a)
    ensures Run(g, states + [Do(g, states[|actions|], a)], actions + [a])
  {
    var states', actions' := states + [Do(g, states[|actions|], a)], actions + [a];
    forall i | 0 <= i < |actions'| ensures Moves(g, states'[i], actions'[i], states'[i + 1]) {
      if i < |actions| {
        assert Moves(g, states[i], actions[i], states[i + 1]);
        assert states'[i] == states[i] && states'[i + 1] == states[i + 1];
      }
    }
  }

  /** Nobody is stuck inside sleep or wakeup, or for a p->lock that they forget: from the last state
      of every run of a disciplined program, steps inside them and of the scheduler's hand-over lead
      to a state in which every process is outside of them or switched away, or waits for a lock
      that a running process of the program holds. */
  lemma CanRest<D(!new), L(!new)>(g: Program<D, L>, o: Outline<D, L>, grip: Grip<L>,
                                  states: seq<State<D, L>>, actions: seq<Action<D, L>>)
      returns (states': seq<State<D, L>>, actions': seq<Action<D, L>>)
    requires Disciplined(g, o) && Handles(g, grip) && Run(g, states, actions) && o.good(states[0].d)
    requires forall p: nat :: p < |states[0].procs| ==> grip(p, states[0].procs[p].local).None?
    ensures Run(g, states', actions') && actions <= actions' && states <= states'
    ensures forall i :: |actions| <= i < |actions'| ==> actions'[i].Go? || actions'[i].Release?
    ensures forall p: nat :: Rests(grip, states'[|actions'|], p)
    ensures states'[|actions'|].d == states[|actions|].d
  {
    states', actions' := states, actions;
    while exists p: nat :: !Rests(grip, states'[|actions'|], p)
      invariant Run(g, states', actions') && actions <= actions' && states <= states'
      invariant forall i :: |actions| <= i < |actions'| ==> actions'[i].Go? || actions'[i].Release?
      invariant states'[|actions'|].d == states[|actions|].d
      decreases Left(states'[|actions'|].procs, |states'[|actions'|].procs|)
    {
      var s := states'[|actions'|];
      var p: nat :| !Rests(grip, s, p);
      RunLocks(g, o, grip, states', actions', |actions'|);
      var a := NextToRest(g, grip, s, p);
      Extend(g, states', actions', a);
      states', actions' := states' + [Do(g, s, a)], actions' + [a];
    }
  }

  // ----- Programs that leave p->lock alone -----

  ghost predicate Plain<D(!new), L(!new)>(g: Program<D, L>) {
    forall p: nat, d, l, step :: g.can(p, d, l, step) ==> !step.Lock? && !step.Unlock? && !step.Spawn? && !step.Depart?
  }

  /** Neither in sleep nor in wakeup, or waiting for the condition lock. */
  predicate Outside<D, L>(s: State<D, L>, p: nat) {
    p < |s.procs| ==>
      || s.procs[p].pc.Running? || s.procs[p].pc.Off? || s.procs[p].pc.Gone?
      || (s.procs[p].pc.Relock? && s.lk.Some?)
  }

  /** When the program has no p->lock itself, all of them come out of sleep and wakeup, or stay
      switched away, except those that wait for the condition lock. */
  lemma AllComeOut<D(!new), L(!new)>(g: Program<D, L>, o: Outline<D, L>,
                                     states: seq<State<D, L>>, actions: seq<Action<D, L>>)
      returns (states': seq<State<D, L>>, actions': seq<Action<D, L>>)
    requires Disciplined(g, o) && Plain(g) && Run(g, states, actions) && o.good(states[0].d)
    ensures Run(g, states', actions') && actions <= actions' && states <= states'
    ensures forall i :: |actions| <= i < |actions'| ==> actions'[i].Go? || actions'[i].Release?
    ensures forall p: nat :: Outside(states'[|actions'|], p)
  {
    var grip: Grip<L> := (p: nat, l: L) => None;
    states', actions' := CanRest(g, o, grip, states, actions);
    forall p: nat ensures Outside(states'[|actions'|], p) { assert Rests(grip, states'[|actions'|], p); }
  }
}
