/** sleeplock.c: acquiresleep, releasesleep and holdingsleep, run by any number of processes
    in every interleaving that SleepWakeup allows. */
module SleepLock {
  import opened Common
  import opened SleepWakeup

  datatype Data = Data(locked: bool, pid: nat)

  /** Where a process stands.  Callers of releasesleep hold the sleep-lock: brelse and
      iunlock check that, by holdingsleep. */
  datatype Local =
    | Idle
    | Testing               // acquiresleep: at the test of lk->locked
    | Marked                // locked is set
    | Taken                 // pid is set
    | Owner                 // acquiresleep has returned
    | Freeing               // releasesleep: about to clear locked
    | Freed                 // locked is cleared
    | Unnamed               // pid is cleared
    | Woken                 // wakeup has returned
    | Asking(owner: bool)   // holdingsleep

  type Machine = State<Data, Local>

  /** The steps of the process whose process id is `pid`. */
  predicate Next(pid: nat, d: Data, l: Local, step: Step<Data, Local>) {
    match l
    case Idle => step == Enter(Testing) || step == Enter(Asking(false))
    case Testing => if d.locked then step == Sleep(0, Testing) else step == Set(d.(locked := true), Local.Marked)
    case Marked => step == Set(d.(pid := pid), Taken)
    case Taken => step == Leave(Owner)
    case Owner => step == Enter(Freeing) || step == Enter(Asking(true))
    case Freeing => step == Set(d.(locked := false), Freed)
    case Freed => step == Set(d.(pid := 0), Unnamed)
    case Unnamed => step == Wake(0, Woken)
    case Woken => step == Leave(Idle)
    case Asking(owner) => step == Leave(if owner then Owner else Idle)
  }

  function Code(pids: seq<nat>): Program<Data, Local> {
    Program(
      (p: nat, d: Data, l: Local, step: Step<Data, Local>) => p < |pids| && Next(pids[p], d, l, step),
      (l: Local) => !l.Idle? && !l.Owner?,
      (d: Data, c: Chan) => c == 0 && d.locked)
  }

  /** Live processes have distinct, positive process ids. */
  predicate Pids(pids: seq<nat>) {
    && (forall p :: 0 <= p < |pids| ==> pids[p] > 0)
    && forall p, q :: 0 <= p < q < |pids| ==> pids[p] != pids[q]
  }

  predicate Clean(d: Data) {
    !d.locked ==> d.pid == 0
  }

  predicate Section(d0: Data, quiet: set<Chan>, d: Data, l: Local) {
    match l
    case Testing => d == d0 && Clean(d)
    case Marked => d.locked
    case Taken => d.locked
    case Freeing => d == d0
    case Freed => !d.locked
    case Unnamed => !d.locked && d.pid == 0
    case Woken => !d.locked && d.pid == 0 && 0 in quiet
    case Asking(_) => d == d0 && Clean(d)
    case _ => false
  }

  function Notes(): Outline<Data, Local> {
    Outline(Clean, (p, d0, quiet, d, l) => Section(d0, quiet, d, l), (p: nat, l: Local) => l.Testing?)
  }

  lemma CodeDisciplined(pids: seq<nat>)
    ensures Disciplined(Code(pids), Notes())
  {
    var g, o := Code(pids), Notes();
    forall p, d, l, step | g.can(p, d, l, step) ensures StepOk(g, o, p, d, l, step) {
      if g.inside(l) {
        forall d0, q ensures InsideOk(g, o, p, d0, q, d, l, step) {}
      }
    }
  }

  predicate Started(pids: seq<nat>, s: Machine) {
    && Pids(pids) && |s.procs| == |pids| && s.d == Data(false, 0)
    && forall p :: 0 <= p < |s.procs| ==> s.procs[p].local.Idle?
  }

  ghost predicate Behaviour(pids: seq<nat>, states: seq<Machine>, actions: seq<Action<Data, Local>>) {
    Run(Code(pids), states, actions) && Started(pids, states[0])
  }

  /** While lk->lk is free and the sleep-lock is not taken, nobody sleeps on it and nobody
      is between releasing lk->lk and sleeping. */
  lemma NoStuckSleeper(pids: seq<nat>, states: seq<Machine>, actions: seq<Action<Data, Local>>, i: nat, p: nat)
    requires Behaviour(pids, states, actions) && i < |states|
    requires states[i].lk.None? && !states[i].d.locked && p < |states[i].procs|
    ensures forall c: Chan :: !Asleep(states[i].procs[p], c)
  {
    CodeDisciplined(pids);
    forall c: Chan ensures !Asleep(states[i].procs[p], c) {
      if Asleep(states[i].procs[p], c) {
        NoLostWakeup(Code(pids), Notes(), states, actions, i, p, c);
      }
    }
  }

  // ----- Mutual exclusion -----

  /** From setting locked to clearing it. */
  predicate Owns(l: Local) {
    l.Marked? || l.Taken? || l.Owner? || l.Freeing? || l == Asking(true)
  }

  predicate OwnerOk(pids: seq<nat>, d: Data, ls: seq<Local>, p: nat) {
    && p < |ls| == |pids|
    && (ls[p].Freed? ==> !d.locked)
    && (Owns(ls[p]) ==>
          && d.locked && (!ls[p].Marked? ==> d.pid == pids[p])
          && forall q :: 0 <= q < |ls| && Owns(ls[q]) ==> q == p)
  }

  predicate Exclusive(pids: seq<nat>, d: Data, ls: seq<Local>) {
    && |ls| == |pids|
    && (d.locked ==> exists p :: 0 <= p < |ls| && Owns(ls[p]))
    && forall p: nat :: p < |ls| ==> OwnerOk(pids, d, ls, p)
  }

  lemma CodeExclusive(pids: seq<nat>)
    ensures Keeps(Code(pids), Notes(), (d, ls) => Exclusive(pids, d, ls))
  {
    var g := Code(pids);
    forall p: nat, d: Data, ls: seq<Local>, step |
        Exclusive(pids, d, ls) && p < |ls| && Alone(g, Notes(), ls, p) && g.can(p, d, ls[p], step)
      ensures Exclusive(pids, DataAfter(d, step), LocalsAfter(ls, p, step))
    {
      StepExclusive(pids, p, d, ls, step);
    }
  }

  lemma StepExclusive(pids: seq<nat>, p: nat, d: Data, ls: seq<Local>, step: Step<Data, Local>)
    requires Exclusive(pids, d, ls) && p < |ls| && Alone(Code(pids), Notes(), ls, p)
    requires Next(pids[p], d, ls[p], step)
    ensures Exclusive(pids, DataAfter(d, step), LocalsAfter(ls, p, step))
  {
    var ls' := LocalsAfter(ls, p, step);
    var d' := DataAfter(d, step);
    assert OwnerOk(pids, d, ls, p);
    forall q: nat | q < |ls'| ensures OwnerOk(pids, d', ls', q) {
      assert OwnerOk(pids, d, ls, q);
      forall r: nat | r < |ls'| && Owns(ls'[r]) && Owns(ls'[q]) ensures r == q {
        assert OwnerOk(pids, d, ls, r);
      }
    }
    if d'.locked {
      if d.locked {
        var q :| 0 <= q < |ls| && Owns(ls[q]);
        assert Owns(ls'[q]);
      } else {
        assert Owns(ls'[p]);
      }
    }
  }

  lemma AlwaysExclusive(pids: seq<nat>, states: seq<Machine>, actions: seq<Action<Data, Local>>, i: nat)
    requires Behaviour(pids, states, actions) && i < |states|
    ensures Exclusive(pids, states[i].d, Locals(states[i]))
  {
    CodeDisciplined(pids);
    CodeExclusive(pids);
    RunKeeps(Code(pids), Notes(), (d, ls) => Exclusive(pids, d, ls), states, actions, i);
  }

  /** At most one process is between its acquiresleep and its releasesleep, and there is
      one exactly while locked is set. */
  lemma MutualExclusion(pids: seq<nat>, states: seq<Machine>, actions: seq<Action<Data, Local>>, i: nat)
    requires Behaviour(pids, states, actions) && i < |states|
    ensures var procs := states[i].procs;
      && (forall p, q :: 0 <= p < |procs| && 0 <= q < |procs| ==>
            Owns(procs[p].local) && Owns(procs[q].local) ==> p == q)
      && (states[i].d.locked <==> exists p :: 0 <= p < |procs| && Owns(procs[p].local))
  {
    AlwaysExclusive(pids, states, actions, i);
    var s := states[i];
    var ls := Locals(s);
    forall p, q | 0 <= p < |ls| && 0 <= q < |ls| && Owns(s.procs[p].local) && Owns(s.procs[q].local)
      ensures p == q && s.d.locked
    {
      assert OwnerOk(pids, s.d, ls, p) && Owns(ls[q]);
    }
    if s.d.locked {
      var p :| 0 <= p < |ls| && Owns(ls[p]);
      assert Owns(s.procs[p].local);
    }
  }

  /** holdingsleep answers whether its caller has the sleep-lock. */
  lemma HoldingSleepIsRight(pids: seq<nat>, states: seq<Machine>, actions: seq<Action<Data, Local>>, i: nat, p: nat)
    requires Behaviour(pids, states, actions) && i < |states|
    requires p < |states[i].procs| && p < |pids| && states[i].procs[p].pc.Running? && states[i].procs[p].local.Asking?
    ensures states[i].procs[p].local.owner <==> states[i].d.locked && states[i].d.pid == pids[p]
  {
    var s := states[i];
    CodeDisciplined(pids);
    RunInv(Code(pids), Notes(), states, actions, i);
    AlwaysExclusive(pids, states, actions, i);
    assert LkOk(Code(pids), Notes(), s, p);
    assert OwnerOk(pids, s.d, Locals(s), p);
    if !s.procs[p].local.owner && s.d.locked {
      var q :| 0 <= q < |s.procs| && Owns(Locals(s)[q]);
      assert OwnerOk(pids, s.d, Locals(s), q);
      assert LkOk(Code(pids), Notes(), s, q);
    }
  }

  /** Whatever the sleep-lock looks like, the code knows what to do next. */
  lemma AlwaysAStep(pid: nat, d: Data, l: Local) returns (step: Step<Data, Local>)
    ensures Next(pid, d, l, step)
  {
    match l
    case Idle => step := Enter(Testing);
    case Testing => step := if d.locked then Sleep(0, Testing) else Set(d.(locked := true), Local.Marked);
    case Marked => step := Set(d.(pid := pid), Taken);
    case Taken => step := Leave(Owner);
    case Owner => step := Enter(Freeing);
    case Freeing => step := Set(d.(locked := false), Freed);
    case Freed => step := Set(d.(pid := 0), Unnamed);
    case Unnamed => step := Wake(0, Woken);
    case Woken => step := Leave(Idle);
    case Asking(owner) => step := Leave(if owner then Owner else Idle);
  }
}
