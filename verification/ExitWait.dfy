/** fork, exit, reparent, wait, waitx and kill of proc.c, run by every process of the table in
    every interleaving that SleepWakeup allows; `lk` is wait_lock. */
module ExitWait {
  import opened Common
  import opened SleepWakeup
  import SleepProgress

  const INIT: nat := 0   // initproc's slot

  datatype Status = UNUSED | INUSE | ZOMBIE

  /** `deaths` and `reaps` are history: how often the slot became ZOMBIE and was freed by a parent. */
  datatype Entry = Entry(parent: Option<nat>, status: Status, killed: bool, deaths: nat, reaps: nat)

  type Table = seq<Entry>

  /** The memory that allocproc and uvmcopy find for a child: enough, none for the copy of the
      trapframe, or none for something else. */
  datatype Memory = ENOUGH | NO_COPY | NONE

  /** `bad` says whether the address that wait was given cannot be written. */
  datatype Local =
    | User
    | Seeking(k: nat, mem: Memory)             // allocproc: about to acquire proc[k].lock
    | Found(k: nat, mem: Memory)               // holding it, about to look at the state
    | Building(k: nat, mem: Memory)            // fork: filling in the child, its lock held
    | Scrapped(k: nat, mem: Memory)            // freeproc has run, the lock is still held
    | Built(k: nat)                         // about to acquire wait_lock
    | Adopting(k: nat)                      // about to set np->parent
    | Adopted(k: nat)
    | Launching(k: nat)                     // about to acquire np->lock
    | Launch(k: nat)                        // about to make the child runnable
    | Launched(k: nat)
    | Hunting(k: nat)                       // kill: about to acquire proc[k].lock
    | Hunted(k: nat)                        // holding it
    | Shot(k: nat)                        // the victim is marked, its lock is still held
    | Reparent(k: nat)                      // exit: reparent looks at proc[k]
    | Poke(k: nat)                          // about to wake init for it
    | Told                                  // the parent has been woken
    | Dying                                 // holding p->lock
    | Dead                                  // ZOMBIE, about to leave for good
    | Exited
    | Scan(k: nat, kids: bool, bad: bool)   // wait: looks at proc[k]
    | Check(k: nat, bad: bool)              // it is a child, its lock is held
    | Reaped(k: nat)                        // freeproc has run, the lock is still held
    | Collected(k: nat)                     // about to return the child's pid
    | Refused(bad: bool)                    // copyout has failed
    | Doze(bad: bool)                       // about to sleep
    | GivenUp                               // killed

  type Machine = State<Table, Local>

  /** Where wakeup(p->parent) goes; no process sleeps beyond the table. */
  function ParentChan(d: Table, p: nat): Chan {
    if p < |d| && d[p].parent.Some? then d[p].parent.value else |d|
  }

  function Retire(e: Entry): Entry {
    e.(parent := None, status := UNUSED, killed := false)
  }

  /** fork counts on the slot that allocproc gave it; ForkKeepsItsSlot shows that it may. */
  predicate Reserved(d: Table, k: nat) {
    k < |d| && d[k].status.INUSE? && d[k].parent.None?
  }

  ghost predicate Next(p: nat, d: Table, l: Local, step: Step<Table, Local>) {
    p < |d| &&
    match l
    case User =>
      || (exists mem: Memory :: step == Set(d, Seeking(0, mem)))
      || (exists bad: bool :: step == Enter(Scan(0, false, bad)))
      || step == Set(d, Hunting(0)) || (p != INIT && step == Enter(Reparent(0)))
    case Seeking(k, mem) => if k >= |d| then step == Set(d, User) else step == Lock(k, Found(k, mem))
    case Found(k, mem) =>
      if k < |d| && d[k].status.UNUSED? then step == Set(d[k := d[k].(status := INUSE)], Building(k, mem))
      else step == Unlock(k, Seeking(k + 1, mem))
    case Building(k, mem) =>
      match mem {
        case ENOUGH => step == Unlock(k, Built(k))
        case NO_COPY => step == Unlock(k, User)   // proc.c:273-276 does not free the slot
        case NONE => Reserved(d, k) && step == Set(d[k := Retire(d[k])], Scrapped(k, mem))
      }
    case Scrapped(k, _) => step == Unlock(k, User)
    case Built(k) => step == Enter(Adopting(k))
    case Adopting(k) => Reserved(d, k) && step == Set(d[k := d[k].(parent := Some(p))], Adopted(k))
    case Adopted(k) => step == Leave(Launching(k))
    case Launching(k) => step == Lock(k, Launch(k))
    case Launch(k) => step == Spawn(k, User, Launched(k))
    case Launched(k) => step == Unlock(k, User)
    case Hunting(k) => if k >= |d| then step == Set(d, User) else step == Lock(k, Hunted(k))
    case Hunted(k) =>   // whether this is the pid
      step == Unlock(k, Hunting(k + 1)) || (k < |d| && step == Set(d[k := d[k].(killed := true)], Shot(k)))
    case Shot(k) => step == Unlock(k, User)
    case Reparent(k) =>
      if k >= |d| then step == Wake(ParentChan(d, p), Told)
      else if d[k].parent == Some(p) then step == Set(d[k := d[k].(parent := Some(INIT))], Poke(k))
      else step == Set(d, Reparent(k + 1))
    case Poke(k) => step == Wake(INIT, Reparent(k + 1))
    case Told => step == Lock(p, Dying)
    case Dying => step == Set(d[p := d[p].(status := ZOMBIE, deaths := d[p].deaths + 1)], Dead)
    case Dead => step == Depart(Exited)
    case Exited => false
    case Scan(k, kids, bad) =>
      if k >= |d| then
        if !kids then step == Leave(User) else step == Set(d, if d[p].killed then GivenUp else Doze(bad))
      else if d[k].parent == Some(p) then step == Lock(k, Check(k, bad))
      else step == Set(d, Scan(k + 1, kids, bad))
    case Check(k, bad) =>
      if k < |d| && d[k].status.ZOMBIE? then
        if bad then step == Unlock(k, Refused(bad))
        else step == Set(d[k := Retire(d[k]).(reaps := d[k].reaps + 1)], Reaped(k))
      else step == Unlock(k, Scan(k + 1, true, bad))
    case Reaped(k) => step == Unlock(k, Collected(k))
    case Collected(_) => step == Leave(User)
    case Refused(_) => step == Leave(User)
    case Doze(bad) => step == Sleep(p, Scan(0, false, bad))
    case GivenUp => step == Leave(User)
  }

  predicate Inside(l: Local) {
    l.Adopting? || l.Adopted? || l.Reparent? || l.Poke? || l.Told? || l.Dying? || l.Dead? || l.Scan? || l.Check? ||
    l.Reaped? || l.Collected? || l.Refused? || l.Doze? || l.GivenUp?
  }

  predicate ZombieChild(d: Table, k: nat, c: nat) {
    k < |d| && d[k].parent == Some(c) && d[k].status.ZOMBIE?
  }

  /** A process in wait has nothing to collect. */
  predicate Blocked(d: Table, c: nat) {
    forall k :: 0 <= k < |d| ==> !ZombieChild(d, k, c)
  }

  ghost function Code(): Program<Table, Local> {
    Program(
      (p: nat, d: Table, l: Local, step: Step<Table, Local>) => Next(p, d, l, step),
      (l: Local) => Inside(l),
      (d: Table, c: Chan) => Blocked(d, c))
  }

  // ----- The discipline -----

  /** The section has unblocked `c` only if it has also woken it. */
  predicate Settled(d0: Table, quiet: set<Chan>, d: Table, c: nat) {
    Blocked(d0, c) ==> Blocked(d, c) || c in quiet
  }

  predicate NoChild(d: Table, p: nat, k: nat) {
    forall j :: 0 <= j < |d| && j < k ==> d[j].parent != Some(p)
  }

  predicate NoZombieChild(d: Table, p: nat, k: nat) {
    forall j :: 0 <= j < |d| && j < k ==> !ZombieChild(d, j, p)
  }

  predicate PointOk(p: nat, d0: Table, quiet: set<Chan>, d: Table, l: Local) {
    match l
    case Reparent(k) => p != INIT && NoChild(d, p, k)
    case Poke(k) => p != INIT && NoChild(d, p, k + 1)
    case Told => NoChild(d, p, |d|) && ParentChan(d, p) in quiet
    case Dying => NoChild(d, p, |d|) && ParentChan(d, p) in quiet
    case Scan(k, _, _) => NoZombieChild(d, p, k)
    case Check(k, _) => NoZombieChild(d, p, k)
    case Doze(_) => NoZombieChild(d, p, |d|)
    case _ => true
  }

  ghost predicate Section(p: nat, d0: Table, quiet: set<Chan>, d: Table, l: Local) {
    && PointOk(p, d0, quiet, d, l)
    && forall c: nat :: (l.Poke? ==> c != INIT) ==> Settled(d0, quiet, d, c)
  }

  ghost function Notes(): Outline<Table, Local> {
    Outline((d: Table) => true,
            (p: nat, d0: Table, quiet: set<Chan>, d: Table, l: Local) => Section(p, d0, quiet, d, l),
            (p: nat, l: Local) => l.Scan? && l.k == 0 && !l.kids)
  }

  /** Changing entry `k` without touching a parent or a ZOMBIE. */
  predicate Minor(d: Table, d': Table) {
    |d'| == |d| && forall k :: 0 <= k < |d| ==>
      d'[k].parent == d[k].parent && (d'[k].status.ZOMBIE? <==> d[k].status.ZOMBIE?)
  }

  lemma MinorBlocked(d: Table, d': Table, c: nat)
    requires Minor(d, d')
    ensures Blocked(d, c) <==> Blocked(d', c)
  {
    forall k | 0 <= k < |d| ensures ZombieChild(d, k, c) <==> ZombieChild(d', k, c) {}
  }

  lemma MinorStable(d: Table, d': Table)
    requires Minor(d, d')
    ensures SameBlocked(Code(), d, d') && Stable(Notes(), d, d')
  {
    forall c: Chan ensures Blocked(d, c) <==> Blocked(d', c) { MinorBlocked(d, d', c); }
    forall h: nat, d0, q, l | Section(h, d0, q, d, l) ensures Section(h, d0, q, d', l) {
      forall j | 0 <= j < |d| ensures ZombieChild(d, j, h) <==> ZombieChild(d', j, h) {}
      forall c: nat | l.Poke? ==> c != INIT ensures Settled(d0, q, d', c) { assert Settled(d0, q, d, c); }
    }
  }

  lemma OutsideStep(p: nat, d: Table, l: Local, step: Step<Table, Local>)
    requires Next(p, d, l, step) && !Inside(l)
    ensures OutsideOk(Code(), Notes(), p, d, step)
  {
    if step.Set? {
      assert Minor(d, step.d);
      MinorStable(d, step.d);
    }
  }

  lemma NextPoint(p: nat, d0: Table, q: set<Chan>, d: Table, l: Local, step: Step<Table, Local>)
    requires Next(p, d, l, step) && Inside(l) && PointOk(p, d0, q, d, l)
    ensures step.Set? || step.Lock? || step.Unlock? ==> PointOk(p, d0, q, DataAfter(d, step), step.l)
    ensures step.Wake? ==> PointOk(p, d0, q + {step.c}, d, step.l)
  {
  }

  lemma InsideStep(p: nat, d0: Table, q: set<Chan>, d: Table, l: Local, step: Step<Table, Local>)
    requires Next(p, d, l, step) && Inside(l) && Section(p, d0, q, d, l)
    ensures InsideOk(Code(), Notes(), p, d0, q, d, l, step)
  {
    NextPoint(p, d0, q, d, l, step);
    if step.Set? {
      forall c: nat | step.l.Poke? ==> c != INIT ensures Settled(d0, q, step.d, c) {
        SettledSet(p, d0, q, d, l, step.d, step.l, c);
      }
    } else if step.Wake? {
      forall c: nat | step.l.Poke? ==> c != INIT ensures Settled(d0, q + {step.c}, d, c) {
        assert c == step.c || Settled(d0, q, d, c);
      }
    } else {
      forall c: nat ensures Settled(d0, q, d, c) && (Blocked(d0, c) ==> Blocked(d, c) || c in q) {
        assert Settled(d0, q, d, c);
      }
    }
  }

  lemma SettledSet(p: nat, d0: Table, q: set<Chan>, d: Table, l: Local, d': Table, l': Local, c: nat)
    requires Next(p, d, l, Set(d', l')) && Inside(l) && Section(p, d0, q, d, l) && (l'.Poke? ==> c != INIT)
    ensures Settled(d0, q, d', c)
  {
    assert Settled(d0, q, d, c);
    if Blocked(d, c) && !(l.Dying? && c == ParentChan(d, p)) {
      forall k | 0 <= k < |d'| ensures !ZombieChild(d', k, c) { assert !ZombieChild(d, k, c); }
    }
  }

  lemma CodeDisciplined()
    ensures Disciplined(Code(), Notes())
  {
    var g, o := Code(), Notes();
    forall p, d, l, step | g.can(p, d, l, step) ensures StepOk(g, o, p, d, l, step) {
      if g.inside(l) {
        forall d0, q ensures InsideOk(g, o, p, d0, q, d, l, step) {
          if Section(p, d0, q, d, l) { InsideStep(p, d0, q, d, l, step); }
        }
      } else {
        OutsideStep(p, d, l, step);
      }
    }
  }

  // ----- Slots, threads and parents -----

  predicate Exiting(l: Local) {
    l.Reparent? || l.Poke? || l.Told? || l.Dying? || l.Dead? || l.Exited?
  }

  /** The slot that a process in fork has for its child. */
  function Slot(l: Local): Option<nat> {
    match l
    case Building(k, _) => Some(k)
    case Built(k) => Some(k)
    case Adopting(k) => Some(k)
    case Adopted(k) => Some(k)
    case Launching(k) => Some(k)
    case Launch(k) => Some(k)
    case _ => None
  }

  predicate HasParent(l: Local) {
    l.Adopted? || l.Launching? || l.Launch?
  }

  /** The process lock that a process holds between its steps. */
  function Grip(p: nat, l: Local): Option<nat> {
    match l
    case Found(k, _) => Some(k)
    case Building(k, _) => Some(k)
    case Scrapped(k, _) => Some(k)
    case Launch(k) => Some(k)
    case Launched(k) => Some(k)
    case Hunted(k) => Some(k)
    case Shot(k) => Some(k)
    case Check(k, _) => Some(k)
    case Reaped(k) => Some(k)
    case Dying => Some(p)
    case Dead => Some(p)
    case _ => None
  }

  /** A thread runs in an INUSE slot until it has made it a ZOMBIE. */
  predicate ThreadOk(s: Machine, p: nat) {
    p < |s.procs| == |s.d| ==>
      && var e, r := s.d[p], s.procs[p];
      && (!r.pc.Gone? ==> if r.local.Dead? || r.local.Exited? then e.status.ZOMBIE? else e.status.INUSE?)
      && (r.pc.Departing? ==> r.local.Exited?)
      && (r.local.Exited? ==> r.pc.Departing? || r.pc.Gone?)
      && (p == INIT ==> !r.pc.Gone? && !Exiting(r.local))
  }

  /** Every process but init has a parent, until that parent has collected it. */
  predicate LineageOk(s: Machine, p: nat) {
    p < |s.procs| == |s.d| ==>
      && (p != INIT && (!s.procs[p].pc.Gone? || s.d[p].status.ZOMBIE?) ==> s.d[p].parent.Some?)
      && (s.d[p].status.UNUSED? ==> s.d[p].parent.None?)
  }

  /** Every death but a pending one has been collected once. */
  predicate CountOk(s: Machine, p: nat) {
    p < |s.d| ==> s.d[p].deaths == s.d[p].reaps + (if s.d[p].status.ZOMBIE? then 1 else 0)
  }

  /** A child under construction has a slot of its own, and nothing runs in it. */
  predicate SlotOk(s: Machine, p: nat) {
    p < |s.procs| == |s.d| && Slot(s.procs[p].local).Some? ==>
      && var k := Slot(s.procs[p].local).value;
      && k < |s.d| && s.d[k].status.INUSE? && s.procs[k].pc.Gone? && !s.procs[p].pc.Gone?
      && s.d[k].parent == (if HasParent(s.procs[p].local) then Some(p) else None)
  }

  predicate Apart(s: Machine, p: nat, q: nat) {
    p < |s.procs| && q < |s.procs| && p != q && Slot(s.procs[p].local).Some? ==>
      Slot(s.procs[q].local) != Slot(s.procs[p].local)
  }

  predicate GripOk(s: Machine, p: nat) {
    p < |s.procs| && Grip(p, s.procs[p].local).Some? ==>
      && s.procs[p].pc.Running?
      && var k := Grip(p, s.procs[p].local).value;
      && k < |s.procs| && s.procs[k].lock == Held(p)
  }

  /** Whoever is named as a parent is still running. */
  predicate KinOk(s: Machine, k: nat) {
    k < |s.procs| == |s.d| && s.d[k].parent.Some? ==>
      && var q := s.d[k].parent.value;
      && q < |s.d| && s.d[q].status.INUSE? && !s.procs[q].pc.Gone?
  }

  ghost predicate World(s: Machine) {
    && |s.d| == |s.procs| && INIT < |s.d|
    && (forall p: nat :: ThreadOk(s, p))
    && (forall p: nat :: LineageOk(s, p))
    && (forall p: nat :: CountOk(s, p))
    && (forall p: nat :: SlotOk(s, p))
    && (forall p: nat, q: nat :: Apart(s, p, q))
    && (forall p: nat :: GripOk(s, p))
    && (forall k: nat :: KinOk(s, k))
  }

  /** At boot only init runs and every other slot is UNUSED. */
  predicate Booted(s: Machine) {
    && |s.d| == |s.procs| && INIT < |s.d|
    && s.d[INIT] == Entry(None, INUSE, false, 0, 0) && s.procs[INIT].pc.Running?
    && (forall p :: 0 <= p < |s.procs| ==> s.procs[p].local.User?)
    && (forall p :: 0 <= p < |s.procs| && p != INIT ==>
          s.procs[p].pc.Gone? && s.d[p] == Entry(None, UNUSED, false, 0, 0))
  }

  ghost predicate Behaviour(states: seq<Machine>, actions: seq<Action<Table, Local>>) {
    Run(Code(), states, actions) && Booted(states[0])
  }

  // ----- The program's steps keep it -----

  ghost predicate Asked(s: Machine, s': Machine, i: nat, step: Step<Table, Local>) {
    && i < |s.procs| && |s'.procs| == |s.procs| == |s.d| && s.procs[i].pc.Running?
    && s'.d == DataAfter(s.d, step) && |s'.d| == |s.d|
    && (step.Lock? || step.Unlock? || step.Spawn? ==> step.k < |s.procs|)
    && (step.Lock? ==> s.procs[step.k].lock.Free?)
    && (step.Unlock? ==> s.procs[step.k].lock == Held(i))
    && forall j: nat :: Effect(s, s', i, step, j)
  }

  /** No thread uses the stack of a ZOMBIE whose lock somebody else holds. */
  lemma OffItsStack(s: Machine, p: nat, k: nat)
    requires |s.procs| == |s.d| && k < |s.procs| && p != k
    requires ThreadOk(s, k) && GripOk(s, k) && OwnOk(s, k)
    requires s.d[k].status.ZOMBIE? && s.procs[k].lock == Held(p)
    ensures s.procs[k].pc.Gone?
  {
  }

  /** What process `i` may do to another slot. */
  predicate Meddles(i: nat, l: Local, e: Entry, j: nat, e': Entry) {
    || e' == e
    || (l.Found? && l.k == j && e.status.UNUSED? && e' == e.(status := INUSE))
    || (l.Building? && l.k == j && e' == Retire(e))
    || (l == Hunted(j) && e' == e.(killed := true))
    || (l == Adopting(j) && e' == e.(parent := Some(i)))
    || (l == Reparent(j) && e.parent == Some(i) && e' == e.(parent := Some(INIT)))
    || (l.Check? && l.k == j && e.status.ZOMBIE? && e' == Retire(e).(reaps := e.reaps + 1))
  }

  lemma NextMeddles(i: nat, d: Table, l: Local, step: Step<Table, Local>, j: nat)
    requires Next(i, d, l, step) && j < |d| && j != i
    ensures |DataAfter(d, step)| == |d| && Meddles(i, l, d[j], j, DataAfter(d, step)[j])
  {
  }

  /** A process gets a slot by finding it UNUSED, and then changes it only by adopting it. */
  predicate SlotStep(i: nat, d: Table, l: Local, d': Table, l': Local, k: nat) {
    && k < |d| == |d'|
    && if Slot(l) != Some(k) then
         l.Found? && l.k == k && !HasParent(l') && d[k].status.UNUSED? && d'[k] == d[k].(status := INUSE)
       else if HasParent(l) != HasParent(l') then HasParent(l') && d'[k] == d[k].(parent := Some(i))
       else d'[k] == d[k]
  }

  lemma NextSlot(i: nat, d: Table, l: Local, step: Step<Table, Local>)
    requires Next(i, d, l, step)
    ensures Slot(step.l).Some? && (Slot(l).Some? ==> Slot(l).value < |d|) ==>
              SlotStep(i, d, l, DataAfter(d, step), step.l, Slot(step.l).value)
    ensures step.Spawn? ==> step.child == User && l == Launch(step.k) && step.l == Launched(step.k)
  {
  }

  lemma AskThreadOther(s: Machine, s': Machine, i: nat, step: Step<Table, Local>, j: nat)
    requires Asked(s, s', i, step) && ThreadOk(s, i) && ThreadOk(s, j) && SlotOk(s, i) && GripOk(s, i) && GripOk(s, j)
    requires j < |s.procs| && j != i && OwnOk(s, j)
    requires Meddles(i, s.procs[i].local, s.d[j], j, s'.d[j])
    requires step.Spawn? ==> step.child == User && s.procs[i].local == Launch(step.k)
    ensures ThreadOk(s', j)
  {
    assert Effect(s, s', i, step, j);
    if s.procs[i].local.Check? && s.procs[i].local.k == j && s.d[j].status.ZOMBIE? { OffItsStack(s, i, j); }
  }

  lemma AskThreadSelf(s: Machine, s': Machine, i: nat, step: Step<Table, Local>)
    requires i < |s.procs| && Next(i, s.d, s.procs[i].local, step)
    requires Asked(s, s', i, step) && ThreadOk(s, i) && SlotOk(s, i) && GripOk(s, i)
    ensures ThreadOk(s', i)
  {
    assert Effect(s, s', i, step, i);
  }

  lemma AskLineage(s: Machine, s': Machine, i: nat, step: Step<Table, Local>, j: nat)
    requires i < |s.procs| && Next(i, s.d, s.procs[i].local, step)
    requires Asked(s, s', i, step) && ThreadOk(s, i) && ThreadOk(s, j) && SlotOk(s, i) && GripOk(s, i) && GripOk(s, j)
    requires LineageOk(s, j)
    requires j < |s.procs| ==> OwnOk(s, j)
    ensures LineageOk(s', j)
  {
    assert Effect(s, s', i, step, j);
    if s.procs[i].local.Check? && s.procs[i].local.k == j && j < |s.d| && s.d[j].status.ZOMBIE? {
      OffItsStack(s, i, j);
    }
  }

  lemma AskCount(s: Machine, s': Machine, i: nat, step: Step<Table, Local>, j: nat)
    requires i < |s.procs| && Next(i, s.d, s.procs[i].local, step)
    requires Asked(s, s', i, step) && ThreadOk(s, i) && CountOk(s, j)
    ensures CountOk(s', j)
  {
  }

  lemma AskSlotOther(s: Machine, s': Machine, i: nat, step: Step<Table, Local>, j: nat)
    requires Asked(s, s', i, step) && SlotOk(s, j) && Apart(s, j, i) && j != i && j < |s.procs|
    requires step.Spawn? ==> step.child == User && s.procs[i].local == Launch(step.k)
    requires Slot(s.procs[j].local).Some? ==>
               var k := Slot(s.procs[j].local).value;
               k < |s.d| && k != i && Meddles(i, s.procs[i].local, s.d[k], k, s'.d[k])
    ensures SlotOk(s', j)
  {
    assert Effect(s, s', i, step, j);
    if Slot(s.procs[j].local).Some? { assert Effect(s, s', i, step, Slot(s.procs[j].local).value); }
  }

  lemma AskSlotSelf(s: Machine, s': Machine, i: nat, step: Step<Table, Local>, k: nat)
    requires Asked(s, s', i, step) && SlotOk(s, i) && ThreadOk(s, i) && ThreadOk(s, k) && LineageOk(s, k)
    requires Slot(step.l) == Some(k) && SlotStep(i, s.d, s.procs[i].local, s'.d, step.l, k) && !step.Spawn?
    ensures SlotOk(s', i)
  {
    assert Effect(s, s', i, step, i) && Effect(s, s', i, step, k);
  }

  lemma AskApart(s: Machine, s': Machine, i: nat, step: Step<Table, Local>, j: nat, m: nat)
    requires Asked(s, s', i, step) && Apart(s, j, m) && SlotOk(s, j) && SlotOk(s, m)
    requires Slot(step.l).Some? ==> SlotStep(i, s.d, s.procs[i].local, s'.d, step.l, Slot(step.l).value)
    requires step.Spawn? ==> step.child == User
    ensures Apart(s', j, m)
  {
    assert Effect(s, s', i, step, j) && Effect(s, s', i, step, m);
  }

  /** A process lock is held from its Lock to its Unlock, across steps that stay on the CPU. */
  lemma NextGrip(i: nat, d: Table, l: Local, step: Step<Table, Local>)
    requires Next(i, d, l, step)
    ensures Grip(i, step.l).Some? ==>
              && !step.Unlock? && !step.Sleep? && !step.Wake? && !step.Depart?
              && (if step.Lock? then Grip(i, step.l) == Some(step.k) else Grip(i, step.l) == Grip(i, l))
    ensures step.Spawn? ==> step.child == User
  {
  }

  lemma AskGrip(s: Machine, s': Machine, i: nat, step: Step<Table, Local>, j: nat)
    requires Asked(s, s', i, step) && GripOk(s, i) && GripOk(s, j)
    requires Grip(i, step.l).Some? ==>
              && !step.Unlock? && !step.Sleep? && !step.Wake? && !step.Depart?
              && (if step.Lock? then Grip(i, step.l) == Some(step.k) else Grip(i, step.l) == Grip(i, s.procs[i].local))
    requires step.Spawn? ==> step.child == User
    ensures GripOk(s', j)
  {
    assert Effect(s, s', i, step, j);
    if j < |s.procs| && Grip(j, s'.procs[j].local).Some? {
      assert Effect(s, s', i, step, Grip(j, s'.procs[j].local).value);
    }
  }

  lemma AskKin(s: Machine, s': Machine, i: nat, step: Step<Table, Local>, j: nat)
    requires i < |s.procs| && Next(i, s.d, s.procs[i].local, step)
    requires Asked(s, s', i, step) && ThreadOk(s, i) && ThreadOk(s, INIT) && SlotOk(s, i) && KinOk(s, j)
    requires INIT < |s.d| && (s.procs[i].local.Dying? ==> NoChild(s.d, i, |s.d|))
    ensures KinOk(s', j)
  {
    assert Effect(s, s', i, step, j);
    if j < |s'.d| && s'.d[j].parent.Some? { assert Effect(s, s', i, step, s'.d[j].parent.value); }
  }

  ghost predicate Both(s: Machine) {
    Inv(Code(), Notes(), s) && World(s)
  }

  /** A step of the program and what it means, process by process. */
  lemma Asking(s: Machine, a: Action<Table, Local>)
    requires Both(s) && a.Ask? && Enabled(Code(), s, a)
    ensures Asked(s, Do(Code(), s, a), a.p, a.step) && Next(a.p, s.d, s.procs[a.p].local, a.step)
  {
    forall j: nat ensures Effect(s, Do(Code(), s, a), a.p, a.step, j) { AskEffect(Code(), s, a, j); }
    AskEffect(Code(), s, a, a.p);
  }

  lemma WorldThread(s: Machine, a: Action<Table, Local>, j: nat)
    requires Both(s) && a.Ask? && Enabled(Code(), s, a)
    ensures ThreadOk(Do(Code(), s, a), j) && LineageOk(Do(Code(), s, a), j) && CountOk(Do(Code(), s, a), j)
  {
    var s', i, step := Do(Code(), s, a), a.p, a.step;
    Asking(s, a);
    assert ThreadOk(s, i) && SlotOk(s, i) && GripOk(s, i);
    assert ThreadOk(s, j) && GripOk(s, j) && OwnOk(s, j) && LineageOk(s, j) && CountOk(s, j);
    if j == i {
      AskThreadSelf(s, s', i, step);
    } else if j < |s.procs| {
      NextMeddles(i, s.d, s.procs[i].local, step, j);
      NextSlot(i, s.d, s.procs[i].local, step);
      AskThreadOther(s, s', i, step, j);
    }
    AskLineage(s, s', i, step, j);
    AskCount(s, s', i, step, j);
  }

  lemma WorldSlot(s: Machine, a: Action<Table, Local>, j: nat)
    requires Both(s) && a.Ask? && Enabled(Code(), s, a)
    ensures SlotOk(Do(Code(), s, a), j)
  {
    var s', i, step := Do(Code(), s, a), a.p, a.step;
    Asking(s, a);
    assert ThreadOk(s, i) && SlotOk(s, i) && SlotOk(s, j) && Apart(s, j, i);
    NextSlot(i, s.d, s.procs[i].local, step);
    if j == i {
      if Slot(step.l).Some? {
        var k := Slot(step.l).value;
        assert ThreadOk(s, k) && LineageOk(s, k);
        AskSlotSelf(s, s', i, step, k);
      } else {
        assert Effect(s, s', i, step, i);
      }
    } else if j < |s.procs| {
      if Slot(s.procs[j].local).Some? { NextMeddles(i, s.d, s.procs[i].local, step, Slot(s.procs[j].local).value); }
      AskSlotOther(s, s', i, step, j);
    }
  }

  lemma WorldApart(s: Machine, a: Action<Table, Local>, j: nat, m: nat)
    requires Both(s) && a.Ask? && Enabled(Code(), s, a)
    ensures Apart(Do(Code(), s, a), j, m)
  {
    Asking(s, a);
    assert Apart(s, j, m) && SlotOk(s, j) && SlotOk(s, m) && SlotOk(s, a.p);
    NextSlot(a.p, s.d, s.procs[a.p].local, a.step);
    AskApart(s, Do(Code(), s, a), a.p, a.step, j, m);
  }

  lemma WorldKin(s: Machine, a: Action<Table, Local>, j: nat)
    requires Both(s) && a.Ask? && Enabled(Code(), s, a)
    ensures KinOk(Do(Code(), s, a), j) && GripOk(Do(Code(), s, a), j)
  {
    Asking(s, a);
    var i := a.p;
    assert ThreadOk(s, i) && ThreadOk(s, INIT) && SlotOk(s, i) && KinOk(s, j) && GripOk(s, i) && GripOk(s, j);
    assert s.procs[i].local.Dying? ==> NoChild(s.d, i, |s.d|) by { assert LkOk(Code(), Notes(), s, i); }
    AskKin(s, Do(Code(), s, a), i, a.step, j);
    NextGrip(i, s.d, s.procs[i].local, a.step);
    AskGrip(s, Do(Code(), s, a), i, a.step, j);
  }

  lemma GoWorld(s: Machine, a: Action<Table, Local>, j: nat, m: nat)
    requires Both(s) && !a.Ask? && Enabled(Code(), s, a)
    ensures var s' := Do(Code(), s, a);
      && ThreadOk(s', j) && LineageOk(s', j) && CountOk(s', j) && SlotOk(s', j)
      && Apart(s', j, m) && GripOk(s', j) && KinOk(s', j)
  {
    var s' := Do(Code(), s, a);
    assert LookOk(s, a.p) && OwnOk(s, a.p);
    forall n: nat ensures Kept(s, s', n) && |s'.procs| == |s.procs| && s'.d == s.d { GoKept(Code(), s, a, n); }
    KeptWorld(s, s', j, m);
  }

  lemma KeptWorld(s: Machine, s': Machine, j: nat, m: nat)
    requires World(s) && s'.d == s.d && |s'.procs| == |s.procs| && forall n: nat :: Kept(s, s', n)
    ensures ThreadOk(s', j) && LineageOk(s', j) && CountOk(s', j) && SlotOk(s', j)
    ensures Apart(s', j, m) && GripOk(s', j) && KinOk(s', j)
  {
    assert Kept(s, s', j) && Kept(s, s', m);
    assert ThreadOk(s, j) && LineageOk(s, j) && CountOk(s, j) && SlotOk(s, j);
    assert Apart(s, j, m) && GripOk(s, j) && KinOk(s, j);
    if j < |s.procs| {
      if Slot(s.procs[j].local).Some? { assert Kept(s, s', Slot(s.procs[j].local).value); }
      if Grip(j, s.procs[j].local).Some? { assert Kept(s, s', Grip(j, s.procs[j].local).value); }
      if s.d[j].parent.Some? {
        assert ThreadOk(s, s.d[j].parent.value);
        assert Kept(s, s', s.d[j].parent.value);
      }
    }
  }

  lemma StepWorld(s: Machine, a: Action<Table, Local>)
    requires Both(s) && Enabled(Code(), s, a)
    ensures World(Do(Code(), s, a))
  {
    var s' := Do(Code(), s, a);
    if a.Ask? {
      Asking(s, a);
      forall j: nat ensures ThreadOk(s', j) && LineageOk(s', j) && CountOk(s', j) { WorldThread(s, a, j); }
      forall j: nat ensures SlotOk(s', j) { WorldSlot(s, a, j); }
      forall j: nat, m: nat ensures Apart(s', j, m) { WorldApart(s, a, j, m); }
      forall j: nat ensures KinOk(s', j) && GripOk(s', j) { WorldKin(s, a, j); }
    } else {
      assert LookOk(s, a.p) && OwnOk(s, a.p);
      GoKept(Code(), s, a, 0);
      forall j: nat, m: nat
        ensures ThreadOk(s', j) && LineageOk(s', j) && CountOk(s', j) && SlotOk(s', j) && GripOk(s', j) && KinOk(s', j)
        ensures Apart(s', j, m)
      { GoWorld(s, a, j, m); }
      forall j: nat
        ensures ThreadOk(s', j) && LineageOk(s', j) && CountOk(s', j) && SlotOk(s', j) && GripOk(s', j) && KinOk(s', j)
      { GoWorld(s, a, j, 0); }
    }
  }

  // ----- Every run -----

  lemma BootWorld(s: Machine)
    requires Init(Code(), s) && Booted(s)
    ensures World(s)
  {
    forall p: nat
      ensures ThreadOk(s, p) && LineageOk(s, p) && CountOk(s, p) && SlotOk(s, p) && GripOk(s, p) && KinOk(s, p)
    {
      assert p < |s.procs| ==> s.procs[p].local.User? && InitProc(Code(), s.procs[p]);
    }
    forall p: nat, q: nat ensures Apart(s, p, q) {
      assert p < |s.procs| ==> s.procs[p].local.User?;
    }
  }

  lemma RunSafe(states: seq<Machine>, actions: seq<Action<Table, Local>>, i: nat)
    requires Behaviour(states, actions) && i < |states|
    ensures Inv(Code(), Notes(), states[i])
  {
    CodeDisciplined();
    RunInv(Code(), Notes(), states, actions, i);
  }

  lemma RunMoves(states: seq<Machine>, actions: seq<Action<Table, Local>>, i: nat)
    requires Behaviour(states, actions) && i < |actions|
    ensures |states| == |actions| + 1 && Moves(Code(), states[i], actions[i], states[i + 1])
  {
  }

  lemma RunStep(states: seq<Machine>, actions: seq<Action<Table, Local>>, i: nat)
    requires Behaviour(states, actions) && i < |actions| && World(states[i])
    ensures World(states[i + 1])
  {
    RunSafe(states, actions, i);
    RunMoves(states, actions, i);
    StepWorld(states[i], actions[i]);
  }

  lemma {:induction false} RunWorld(states: seq<Machine>, actions: seq<Action<Table, Local>>, i: nat)
    requires Behaviour(states, actions) && i < |states|
    ensures World(states[i])
  {
    if i == 0 {
      BootWorld(states[0]);
    } else {
      RunWorld(states, actions, i - 1);
      RunStep(states, actions, i - 1);
    }
  }

  lemma {:induction false} SleepsOnSelf(states: seq<Machine>, actions: seq<Action<Table, Local>>, i: nat, p: nat,
                                        c: Chan)
    requires Behaviour(states, actions) && i < |states| && p < |states[i].procs| && SleepsFor(states[i].procs[p], c)
    ensures c == p
  {
    if i == 0 {
      BootAwake(states[0], p, c);
    } else {
      var s, a := states[i - 1], actions[i - 1];
      assert Moves(Code(), s, a, states[i]);
      StepSleeps(s, a, p, c);
      if SleepsFor(s.procs[p], c) { SleepsOnSelf(states, actions, i - 1, p, c); }
    }
  }

  lemma BootAwake(s: Machine, p: nat, c: Chan)
    requires Init(Code(), s) && p < |s.procs|
    ensures !SleepsFor(s.procs[p], c)
  {
    assert InitProc(Code(), s.procs[p]);
  }

  lemma StepSleeps(s: Machine, a: Action<Table, Local>, p: nat, c: Chan)
    requires Enabled(Code(), s, a)
    requires p < |Do(Code(), s, a).procs| && SleepsFor(Do(Code(), s, a).procs[p], c)
    ensures p < |s.procs| && (SleepsFor(s.procs[p], c) || c == p)
  {
    AskLocals(Code(), s, a);
    assert |Locals(Do(Code(), s, a))| == |Locals(s)|;
    SleepSource(Code(), s, a, p, c);
  }

  /** Whenever wait_lock is free, nobody sleeps in wait, or is about to, while it has a
      ZOMBIE child.  That includes init and the children that exits have handed to it. */
  lemma NoMissedZombie(states: seq<Machine>, actions: seq<Action<Table, Local>>, i: nat, p: nat, c: Chan, k: nat)
    requires Behaviour(states, actions) && i < |states|
    requires states[i].lk.None? && p < |states[i].procs| && Asleep(states[i].procs[p], c)
    ensures !ZombieChild(states[i].d, k, p)
  {
    CodeDisciplined();
    SleepsOnSelf(states, actions, i, p, c);
    NoLostWakeup(Code(), Notes(), states, actions, i, p, c);
  }

  /** A parent frees a ZOMBIE only when it no longer uses its kernel stack. */
  lemma ReapedOffItsStack(states: seq<Machine>, actions: seq<Action<Table, Local>>, i: nat, p: nat, k: nat)
    requires Behaviour(states, actions) && i < |states|
    requires p < |states[i].procs| && states[i].procs[p].pc.Running?
    requires states[i].procs[p].local.Check? && states[i].procs[p].local.k == k
    requires k < |states[i].procs| && k < |states[i].d| && states[i].d[k].status.ZOMBIE?
    ensures states[i].procs[k].pc.Gone?
  {
    var s := states[i];
    RunSafe(states, actions, i);
    RunWorld(states, actions, i);
    assert ThreadOk(s, p) && GripOk(s, p) && ThreadOk(s, k) && GripOk(s, k) && OwnOk(s, k);
  }

  /** No death is collected twice, and only those of present ZOMBIEs are not collected yet. */
  lemma ReapedOnce(states: seq<Machine>, actions: seq<Action<Table, Local>>, i: nat, k: nat)
    requires Behaviour(states, actions) && i < |states| && k < |states[i].d|
    ensures var e := states[i].d[k]; e.deaths - e.reaps == if e.status.ZOMBIE? then 1 else 0
  {
    RunWorld(states, actions, i);
    assert CountOk(states[i], k);
  }

  /** Every process but init, running or ZOMBIE, has a parent that has not exited. */
  lemma NoOrphans(states: seq<Machine>, actions: seq<Action<Table, Local>>, i: nat, k: nat)
    requires Behaviour(states, actions) && i < |states| && k < |states[i].procs| && k != INIT
    requires |states[i].d| == |states[i].procs| && (!states[i].procs[k].pc.Gone? || states[i].d[k].status.ZOMBIE?)
    ensures var s := states[i];
      && s.d[k].parent.Some?
      && var q := s.d[k].parent.value;
         q < |s.d| && s.d[q].status.INUSE? && !s.procs[q].pc.Gone? && !s.procs[q].local.Dead? &&
             !s.procs[q].local.Exited?
  {
    RunWorld(states, actions, i);
    var s := states[i];
    assert LineageOk(s, k) && KinOk(s, k);
    assert ThreadOk(s, s.d[k].parent.value);
  }

  /** Until fork has made the child runnable its slot stays what allocproc left: nobody else
      takes it, frees it or runs in it. */
  lemma ForkKeepsItsSlot(states: seq<Machine>, actions: seq<Action<Table, Local>>, i: nat, p: nat, k: nat)
    requires Behaviour(states, actions) && i < |states| && p < |states[i].procs|
    requires Slot(states[i].procs[p].local) == Some(k)
    ensures var s := states[i];
      && k < |s.d| == |s.procs| && s.d[k].status.INUSE? && s.procs[k].pc.Gone?
      && (!HasParent(s.procs[p].local) ==> Reserved(s.d, k))
      && forall q :: 0 <= q < |s.procs| && Slot(s.procs[q].local) == Some(k) ==> q == p
  {
    RunWorld(states, actions, i);
    var s := states[i];
    assert SlotOk(s, p);
    forall q | 0 <= q < |s.procs| && Slot(s.procs[q].local) == Some(k) ensures q == p { assert Apart(s, p, q); }
  }

  // ----- What one call does -----

  /** What wait and fork know where they stand. */
  predicate Knows(p: nat, d: Table, l: Local) {
    match l
    case Scan(k, kids, _) => kids <==> !NoChild(d, p, k)
    case Check(k, _) => k < |d| && d[k].parent == Some(p)
    case Doze(_) => !NoChild(d, p, |d|)
    case GivenUp => p < |d| && !NoChild(d, p, |d|) && d[p].killed
    case Refused(bad) => bad && !NoZombieChild(d, p, |d|)
    case Reaped(k) => k < |d| && d[k].status.UNUSED? && d[k].parent.None?
    case Scrapped(_, mem) => mem.NONE?
    case Launched(k) => k < |d| && k != p && d[k].parent == Some(p) && d[k].status.INUSE?
    case _ => true
  }

  /** And the child that fork has launched runs. */
  predicate CallOk(s: Machine, p: nat) {
    p < |s.procs| == |s.d| ==>
      && Knows(p, s.d, s.procs[p].local)
      && (s.procs[p].local.Launched? ==> !s.procs[s.procs[p].local.k].pc.Gone?)
  }

  predicate Waits(l: Local) {
    l.Scan? || l.Check? || l.Doze? || l.GivenUp? || l.Refused? || l.Reaped?
  }

  lemma HoldsWaitLock(s: Machine, p: nat)
    requires Inv(Code(), Notes(), s) && p < |s.procs| && Inside(s.procs[p].local)
    requires !(s.procs[p].local.Scan? && s.procs[p].local.k == 0 && !s.procs[p].local.kids)
    ensures s.lk == Some(p)
  {
    assert LkOk(Code(), Notes(), s, p);
  }

  lemma MinorChildren(d: Table, d': Table, p: nat, k: nat)
    requires Minor(d, d')
    ensures NoChild(d, p, k) <==> NoChild(d', p, k)
    ensures NoZombieChild(d, p, k) <==> NoZombieChild(d', p, k)
  {
    forall j | 0 <= j < |d| ensures ZombieChild(d, j, p) <==> ZombieChild(d', j, p) {}
  }

  lemma OutsideMinor(p: nat, d: Table, l: Local, step: Step<Table, Local>)
    requires Next(p, d, l, step) && !Inside(l)
    ensures Minor(d, DataAfter(d, step))
  {
  }

  /** Others do not change what a process in wait knows. */
  lemma OthersWait(s: Machine, s': Machine, i: nat, step: Step<Table, Local>, j: nat)
    requires Both(s) && Asked(s, s', i, step) && Next(i, s.d, s.procs[i].local, step)
    requires j < |s.procs| && i != j && s'.procs[j].local == s.procs[j].local && Waits(s.procs[j].local) && CallOk(s, j)
    ensures CallOk(s', j)
  {
    var l := s.procs[j].local;
    if !(l.Scan? && l.k == 0 && !l.kids) {
      HoldsWaitLock(s, j);
      assert LkOk(Code(), Notes(), s, i);
      OutsideMinor(i, s.d, s.procs[i].local, step);
      MinorChildren(s.d, s'.d, j, if l.Scan? then l.k else |s.d|);
      if l.GivenUp? {
        NextMeddles(i, s.d, s.procs[i].local, step, j);
        assert SlotOk(s, i) && ThreadOk(s, j);
      } else if l.Reaped? {
        assert GripOk(s, i) && GripOk(s, j) && ThreadOk(s, i);
      }
    }
  }

  lemma OthersLaunched(s: Machine, s': Machine, i: nat, step: Step<Table, Local>, j: nat)
    requires Both(s) && Asked(s, s', i, step) && Next(i, s.d, s.procs[i].local, step)
    requires j < |s.procs| && i != j && s'.procs[j].local == s.procs[j].local && s.procs[j].local.Launched?
    requires CallOk(s, j) && CallOk(s, i)
    ensures CallOk(s', j)
  {
    var k := s.procs[j].local.k;
    assert Effect(s, s', i, step, k);
    assert SlotOk(s, i) && GripOk(s, i) && GripOk(s, j) && ThreadOk(s, i);
  }

  lemma OwnKnows(p: nat, d: Table, l: Local, step: Step<Table, Local>)
    requires Next(p, d, l, step) && Knows(p, d, l)
    requires l.Launch? ==> l.k < |d| && l.k != p && d[l.k].parent == Some(p) && d[l.k].status.INUSE?
    ensures Knows(p, DataAfter(d, step), step.l)
  {
    match l
    case Check(k, _) =>
      assert k < |d| && d[k].status.ZOMBIE? ==> ZombieChild(d, k, p);
      assert !NoChild(d, p, k + 1);
    case Scan(k, kids, _) =>
      assert k < |d| && d[k].parent != Some(p) ==> (NoChild(d, p, k + 1) <==> NoChild(d, p, k));
      assert k >= |d| ==> (NoChild(d, p, |d|) <==> NoChild(d, p, k));
    case _ =>
  }

  lemma OwnCall(s: Machine, s': Machine, i: nat, step: Step<Table, Local>)
    requires Asked(s, s', i, step) && Next(i, s.d, s.procs[i].local, step) && CallOk(s, i) && SlotOk(s, i)
    requires Effect(s, s', i, step, i) && (step.Spawn? ==> Effect(s, s', i, step, step.k))
    ensures CallOk(s', i)
  {
    OwnKnows(i, s.d, s.procs[i].local, step);
  }

  lemma StepCall(s: Machine, a: Action<Table, Local>, j: nat)
    requires Both(s) && Enabled(Code(), s, a) && forall p: nat :: CallOk(s, p)
    ensures CallOk(Do(Code(), s, a), j)
  {
    var s' := Do(Code(), s, a);
    assert CallOk(s, j) && CallOk(s, a.p);
    if a.Ask? {
      Asking(s, a);
      assert Effect(s, s', a.p, a.step, j);
      if j == a.p {
        assert SlotOk(s, j) && (a.step.Spawn? ==> Effect(s, s', j, a.step, a.step.k));
        OwnCall(s, s', a.p, a.step);
      } else if j < |s.procs| && s'.procs[j].local == s.procs[j].local {
        if Waits(s.procs[j].local) {
          OthersWait(s, s', a.p, a.step, j);
        } else if s.procs[j].local.Launched? {
          OthersLaunched(s, s', a.p, a.step, j);
        }
      } else {
        NextGrip(a.p, s.d, s.procs[a.p].local, a.step);
      }
    } else {
      assert LookOk(s, a.p) && OwnOk(s, a.p);
      GoKept(Code(), s, a, j);
      if j < |s.procs| && s.procs[j].local.Launched? {
        GoKept(Code(), s, a, s.procs[j].local.k);
        assert ThreadOk(s, s.procs[j].local.k);
      }
    }
  }

  lemma {:induction false} RunCall(states: seq<Machine>, actions: seq<Action<Table, Local>>, i: nat)
    requires Behaviour(states, actions) && i < |states|
    ensures forall p: nat :: CallOk(states[i], p)
  {
    if i > 0 {
      RunCall(states, actions, i - 1);
      RunWorld(states, actions, i - 1);
      RunSafe(states, actions, i - 1);
      RunMoves(states, actions, i - 1);
      forall p: nat ensures CallOk(states[i], p) { StepCall(states[i - 1], actions[i - 1], p); }
    } else {
      forall p: nat ensures CallOk(states[0], p) { assert p < |states[0].procs| ==> states[0].procs[p].local.User?; }
    }
  }

  /** In every run: a slot is collected only by the process that is its parent, when it is a ZOMBIE;
      that slot is emptied, and no other changes. */
  lemma ReapedByItsParent(states: seq<Machine>, actions: seq<Action<Table, Local>>, i: nat, k: nat)
    requires Behaviour(states, actions) && i < |actions| && k < |states[i].d| && k < |states[i + 1].d|
    requires states[i + 1].d[k].reaps != states[i].d[k].reaps
    ensures var d, a := states[i].d, actions[i];
      && a.Ask? && d[k].parent == Some(a.p) && d[k].status.ZOMBIE?
      && states[i + 1].d == d[k := Entry(None, UNUSED, false, d[k].deaths, d[k].reaps + 1)]
  {
    RunCall(states, actions, i);
    RunMoves(states, actions, i);
    AskLocals(Code(), states[i], actions[i]);
    RunWorld(states, actions, i);
    assert CallOk(states[i], actions[i].p);
  }

  /** In every run: `kids` says whether wait has passed a child; so it fails for want of children
      only when there is none, for being killed only when it was, for its address only when that
      is bad and a ZOMBIE child is there; and it sleeps only when it has a child. */
  lemma WaitSeesItsChildren(states: seq<Machine>, actions: seq<Action<Table, Local>>, i: nat, p: nat)
    requires Behaviour(states, actions) && i < |states| && p < |states[i].procs|
    ensures var d, l := states[i].d, states[i].procs[p].local;
      && p < |d|
      && (l.Scan? ==> (l.kids <==> exists j :: 0 <= j < l.k && j < |d| && d[j].parent == Some(p)))
      && (l.GivenUp? ==> d[p].killed)
      && (l.Refused? ==> l.bad && exists j :: 0 <= j < |d| && d[j].parent == Some(p) && d[j].status.ZOMBIE?)
      && (l.Doze? || l.GivenUp? ==> exists j :: 0 <= j < |d| && d[j].parent == Some(p))
  {
    RunCall(states, actions, i);
    RunWorld(states, actions, i);
    assert CallOk(states[i], p);
    if states[i].procs[p].local.Refused? {
      var j :| 0 <= j < |states[i].d| && ZombieChild(states[i].d, j, p);
    }
  }

  /** In every run: when wait returns after its scan, without having been killed, there is no
      child; when it goes to sleep there is one. */
  lemma WaitLeavesAlone(states: seq<Machine>, actions: seq<Action<Table, Local>>, i: nat)
    requires Behaviour(states, actions) && i < |actions| && actions[i].Ask? && actions[i].p < |states[i].procs|
    ensures var d, p, l := states[i].d, actions[i].p, states[i].procs[actions[i].p].local;
      && (l.Scan? && actions[i].step.Leave? ==> forall j :: 0 <= j < |d| ==> d[j].parent != Some(p))
      && (actions[i].step.Sleep? ==> exists j :: 0 <= j < |d| && d[j].parent == Some(p))
  {
    RunMoves(states, actions, i);
    WaitSeesItsChildren(states, actions, i, actions[i].p);
  }

  /** In every run: wait comes to return the child in slot `k` only by collecting it. */
  lemma WaitReturnsWhatItCollects(states: seq<Machine>, actions: seq<Action<Table, Local>>, i: nat, p: nat, k: nat)
    requires Behaviour(states, actions) && i < |actions| && p < |states[i].procs| && p < |states[i + 1].procs|
    requires states[i + 1].procs[p].local != states[i].procs[p].local
    ensures states[i + 1].procs[p].local == Collected(k) ==> states[i].procs[p].local == Reaped(k)
    ensures states[i + 1].procs[p].local == Reaped(k) ==>
              && k < |states[i].d| == |states[i + 1].d|
              && states[i + 1].d[k].reaps == states[i].d[k].reaps + 1 && actions[i].p == p
  {
    RunMoves(states, actions, i);
    RunWorld(states, actions, i);
    RunSafe(states, actions, i);
    var s, a := states[i], actions[i];
    if a.Ask? {
      Asking(s, a);
      assert Effect(s, states[i + 1], a.p, a.step, p);
      NextGrip(a.p, s.d, s.procs[a.p].local, a.step);
    } else {
      assert LookOk(s, a.p) && OwnOk(s, a.p);
      GoKept(Code(), s, a, p);
    }
  }

  /** In every run: when fork returns the slot `k` there is a running child of its caller in it, and
      it gives up a slot only for want of memory. */
  lemma ForkMakesAChild(states: seq<Machine>, actions: seq<Action<Table, Local>>, i: nat, p: nat)
    requires Behaviour(states, actions) && i < |states| && p < |states[i].procs|
    ensures var s, l := states[i], states[i].procs[p].local;
      && |s.procs| == |s.d|
      && (l.Launched? ==> l.k < |s.d| && l.k != p && s.d[l.k].parent == Some(p) && s.d[l.k].status.INUSE? &&
                          !s.procs[l.k].pc.Gone?)
      && (l.Scrapped? ==> l.mem.NONE?)
  {
    RunCall(states, actions, i);
    RunWorld(states, actions, i);
    assert CallOk(states[i], p);
  }

  /** In every run: a running process always has a next step, and what fork takes for granted
      about its slot holds whenever it comes to that. */
  lemma AlwaysAStep(states: seq<Machine>, actions: seq<Action<Table, Local>>, i: nat, p: nat)
      returns (step: Step<Table, Local>)
    requires Behaviour(states, actions) && i < |states| && p < |states[i].procs| && !states[i].procs[p].local.Exited?
    ensures Next(p, states[i].d, states[i].procs[p].local, step)
  {
    RunWorld(states, actions, i);
    var d, l := states[i].d, states[i].procs[p].local;
    assert SlotOk(states[i], p);
    match l
    case User => step := Set(d, Hunting(0));
    case Seeking(k, mem) => step := if k >= |d| then Set(d, User) else Lock(k, Found(k, mem));
    case Found(k, mem) =>
      step := if k < |d| && d[k].status.UNUSED? then Set(d[k := d[k].(status := INUSE)], Building(k, mem))
              else Unlock(k, Seeking(k + 1, mem));
    case Building(k, mem) =>
      step := match mem case ENOUGH => Unlock(k, Built(k)) case NO_COPY => Unlock(k, User)
                        case NONE => Set(d[k := Retire(d[k])], Scrapped(k, mem));
    case Scrapped(k, _) => step := Unlock(k, User);
    case Built(k) => step := Enter(Adopting(k));
    case Adopting(k) => step := Set(d[k := d[k].(parent := Some(p))], Adopted(k));
    case Adopted(k) => step := Leave(Launching(k));
    case Launching(k) => step := Lock(k, Launch(k));
    case Launch(k) => step := Spawn(k, User, Launched(k));
    case Launched(k) => step := Unlock(k, User);
    case Hunting(k) => step := if k >= |d| then Set(d, User) else Lock(k, Hunted(k));
    case Hunted(k) => step := Unlock(k, Hunting(k + 1));
    case Shot(k) => step := Unlock(k, User);
    case Reparent(k) =>
      step := if k >= |d| then Wake(ParentChan(d, p), Told)
              else if d[k].parent == Some(p) then Set(d[k := d[k].(parent := Some(INIT))], Poke(k))
              else Set(d, Reparent(k + 1));
    case Poke(k) => step := Wake(INIT, Reparent(k + 1));
    case Told => step := Lock(p, Dying);
    case Dying => step := Set(d[p := d[p].(status := ZOMBIE, deaths := d[p].deaths + 1)], Dead);
    case Dead => step := Depart(Exited);
    case Scan(k, kids, bad) =>
      step := if k >= |d| then if !kids then Leave(User) else Set(d, if d[p].killed then GivenUp else Doze(bad))
              else if d[k].parent == Some(p) then Lock(k, Check(k, bad)) else Set(d, Scan(k + 1, kids, bad));
    case Check(k, bad) =>
      step := if k < |d| && d[k].status.ZOMBIE? then
                if bad then Unlock(k, Refused(bad)) else Set(d[k := Retire(d[k]).(reaps := d[k].reaps + 1)], Reaped(k))
              else Unlock(k, Scan(k + 1, true, bad));
    case Reaped(k) => step := Unlock(k, Collected(k));
    case Doze(bad) => step := Sleep(p, Scan(0, false, bad));
    case _ => step := Leave(User);
  }

  // ----- Lost slots -----

  /** Taken, with nothing running in it, no parent to wait for it and no fork that fills it in. */
  ghost predicate Lost(s: Machine, k: nat) {
    && k < |s.d| == |s.procs| && s.d[k].status.INUSE? && s.d[k].parent.None? && s.procs[k].pc.Gone?
    && forall p :: 0 <= p < |s.procs| ==> Slot(s.procs[p].local) != Some(k)
  }

  lemma StepLost(s: Machine, a: Action<Table, Local>, k: nat)
    requires Both(s) && Enabled(Code(), s, a) && Lost(s, k) && forall p: nat :: CallOk(s, p)
    ensures Lost(Do(Code(), s, a), k)
  {
    var s' := Do(Code(), s, a);
    if a.Ask? {
      var i, l := a.p, s.procs[a.p].local;
      Asking(s, a);
      assert CallOk(s, i) && SlotOk(s, i) && Effect(s, s', i, a.step, k);
      NextMeddles(i, s.d, l, a.step, k);
      NextSlot(i, s.d, l, a.step);
      NextGrip(i, s.d, l, a.step);
      forall p | 0 <= p < |s'.procs| ensures Slot(s'.procs[p].local) != Some(k) { assert Effect(s, s', i, a.step, p); }
    } else {
      assert LookOk(s, a.p) && OwnOk(s, a.p);
      forall p: nat ensures Kept(s, s', p) && |s'.procs| == |s.procs| && s'.d == s.d { GoKept(Code(), s, a, p); }
      assert Kept(s, s', k);
      forall p | 0 <= p < |s'.procs| ensures Slot(s'.procs[p].local) != Some(k) { assert Kept(s, s', p); }
    }
  }

  lemma StaysLost(states: seq<Machine>, actions: seq<Action<Table, Local>>, i: nat, k: nat)
    requires Behaviour(states, actions) && i < |actions| && Lost(states[i], k)
    ensures |states| == |actions| + 1 && Lost(states[i + 1], k)
  {
    RunCall(states, actions, i);
    RunWorld(states, actions, i);
    RunSafe(states, actions, i);
    RunMoves(states, actions, i);
    StepLost(states[i], actions[i], k);
  }

  /** Once lost, a slot stays lost, whatever anybody does. */
  lemma {:induction false} LostForGood(states: seq<Machine>, actions: seq<Action<Table, Local>>, i: nat, j: nat, k: nat)
    requires Behaviour(states, actions) && i <= j < |states| && Lost(states[i], k)
    ensures Lost(states[j], k)
    decreases j
  {
    if i < j {
      LostForGood(states, actions, i, j - 1, k);
      StaysLost(states, actions, j - 1, k);
    }
  }

  /** In every run a step loses a slot exactly when it is allocproc's return after it has found no
      page for the copy of the trapframe. */
  lemma LostExactly(states: seq<Machine>, actions: seq<Action<Table, Local>>, i: nat, k: nat)
    requires Behaviour(states, actions) && i < |actions| && !Lost(states[i], k)
    ensures Lost(states[i + 1], k) <==>
            && actions[i].Ask? && actions[i].p < |states[i].procs|
            && states[i].procs[actions[i].p].local == Building(k, NO_COPY)
  {
    RunCall(states, actions, i);
    RunWorld(states, actions, i);
    RunSafe(states, actions, i);
    RunMoves(states, actions, i);
    StepLoses(states[i], actions[i], k);
  }

  lemma StepLoses(s: Machine, a: Action<Table, Local>, k: nat)
    requires Both(s) && Enabled(Code(), s, a) && !Lost(s, k) && forall p: nat :: CallOk(s, p)
    ensures Lost(Do(Code(), s, a), k) <==>
            a.Ask? && a.p < |s.procs| && s.procs[a.p].local == Building(k, NO_COPY)
  {
    var s' := Do(Code(), s, a);
    if a.Ask? {
      var i, l := a.p, s.procs[a.p].local;
      Asking(s, a);
      assert CallOk(s, i) && SlotOk(s, i);
      if l == Building(k, NO_COPY) {
        assert Effect(s, s', i, a.step, k);
        forall p | 0 <= p < |s'.procs| ensures Slot(s'.procs[p].local) != Some(k) {
          assert Effect(s, s', i, a.step, p) && Apart(s, i, p);
        }
      } else if Lost(s', k) {
        NotLost(s, s', i, a.step, k);
      }
    } else {
      assert LookOk(s, a.p) && OwnOk(s, a.p);
      forall p: nat ensures Kept(s, s', p) && |s'.procs| == |s.procs| && s'.d == s.d { GoKept(Code(), s, a, p); }
      assert Kept(s, s', k);
      if Lost(s', k) {
        assert ThreadOk(s, k);
        forall p | 0 <= p < |s.procs| ensures Slot(s.procs[p].local) != Some(k) { assert Kept(s, s', p); }
      }
    }
  }

  lemma NotLost(s: Machine, s': Machine, i: nat, step: Step<Table, Local>, k: nat)
    requires Both(s) && Asked(s, s', i, step) && Next(i, s.d, s.procs[i].local, step) && CallOk(s, i)
    requires !Lost(s, k) && s.procs[i].local != Building(k, NO_COPY)
    ensures !Lost(s', k)
  {
    if Lost(s', k) {
      assert Effect(s, s', i, step, k) && Effect(s, s', i, step, i) && SlotOk(s, i) && ThreadOk(s, i);
      if k != i { NextMeddles(i, s.d, s.procs[i].local, step, k); }
      NextGrip(i, s.d, s.procs[i].local, step);
      forall p | 0 <= p < |s.procs| ensures Slot(s.procs[p].local) != Some(k) {
        assert Effect(s, s', i, step, p) && SlotOk(s, p);
      }
    }
  }

  ghost function Grips(): SleepProgress.Grip<Local> {
    (p: nat, l: Local) => Grip(p, l)
  }

  lemma CodeHandles()
    ensures SleepProgress.Handles(Code(), Grips())
  {
    var g := Code();
    forall p: nat, d, l, step | g.can(p, d, l, step) ensures SleepProgress.GripStep(Grips(), p, l, step) {}
  }

  /** From the last state of every run, all processes come out of sleep and wakeup, or stay switched
      away, except those that wait for wait_lock or for a p->lock that fork, exit, wait or kill has. */
  lemma AllComeOut(states: seq<Machine>, actions: seq<Action<Table, Local>>)
      returns (states': seq<Machine>, actions': seq<Action<Table, Local>>)
    requires Behaviour(states, actions)
    ensures Behaviour(states', actions') && actions <= actions' && states <= states'
    ensures forall p: nat :: SleepProgress.Rests(Grips(), states'[|actions'|], p)
  {
    CodeDisciplined();
    CodeHandles();
    states', actions' := SleepProgress.CanRest(Code(), Notes(), Grips(), states, actions);
  }
}
