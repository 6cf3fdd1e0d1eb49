/** begin_op and end_op of log.c as a program of SleepWakeup: operations sleep on `&log` until a
    commit is over or there is log space, and the last operation commits without the lock. */
module LogSleep {
  import opened Common
  import opened LogDisk
  import opened SleepWakeup

  const LOG: Chan := 0

  /** `n` is log.lh.n. */
  datatype Data = Data(n: nat, outstanding: int, committing: bool)

  datatype Local =
    | Outside
    | Beginning    // at the top of begin_op's loop
    | Begun        // counted, about to release
    | Busy         // in its operation
    | Writing      // in log_write
    | Written      // a block more is logged
    | Ending       // in end_op
    | Counting     // no longer counted
    | Last         // it will commit
    | Over         // past the wakeup
    | Committing   // in commit, without log.lock
    | Committed    // commit has returned
    | Clearing     // about to clear log.committing
    | Unmarked      // about to wake the others

  type Machine = State<Data, Local>

  predicate Blocked(d: Data) {
    d.committing || d.n + (d.outstanding + 1) * MAXOPBLOCKS > LOGSIZE
  }

  /** `Counting` has no step in the case of the panic, and the change in `Committing` is guarded
      by what it relies on; CommitsAlone shows that neither test ever fails. */
  predicate Next(d: Data, l: Local, step: Step<Data, Local>) {
    match l
    case Outside => step == Enter(Beginning)
    case Beginning =>
      if Blocked(d) then step == Sleep(LOG, Beginning) else step == Set(d.(outstanding := d.outstanding + 1), Begun)
    case Begun => step == Leave(Busy)
    case Busy => step == Enter(Writing) || step == Enter(Ending)
    case Writing => step == Leave(Busy) || step == Set(d.(n := d.n + 1), Written)
    case Written => step == Leave(Busy)
    case Ending => step == Set(d.(outstanding := d.outstanding - 1), Counting)
    case Counting =>
      !d.committing && if d.outstanding == 0 then step == Set(d.(committing := true), Last) else step == Wake(LOG, Over)
    case Last => step == Leave(Committing)
    case Over => step == Leave(Outside)
    case Committing => d.committing && step == Set(d.(n := 0), Committed)
    case Committed => step == Enter(Clearing)
    case Clearing => step == Set(d.(committing := false), Unmarked)
    case Unmarked => step == Wake(LOG, Over)
  }

  predicate Inside(l: Local) {
    !l.Outside? && !l.Busy? && !l.Committing? && !l.Committed?
  }

  function Code(): Program<Data, Local> {
    Program((p: nat, d: Data, l: Local, step: Step<Data, Local>) => Next(d, l, step),
            (l: Local) => Inside(l),
            (d: Data, c: Chan) => c == LOG && Blocked(d))
  }

  /** Meanwhile a commit may have emptied the log. */
  predicate Near(d0: Data, d: Data) {
    d == d0 || (d0.committing && d.committing)
  }

  predicate Section(d0: Data, quiet: set<Chan>, d: Data, l: Local) {
    match l
    case Beginning => Near(d0, d)
    case Begun => !Blocked(d0)
    case Writing => Near(d0, d)
    case Written => Blocked(d0) ==> Blocked(d)
    case Last => d.committing
    case Over => LOG in quiet
    case _ => true
  }

  function Notes(): Outline<Data, Local> {
    Outline((d: Data) => true, (p, d0, quiet, d, l) => Section(d0, quiet, d, l), (p: nat, l: Local) => l.Beginning?)
  }

  lemma CodeDisciplined()
    ensures Disciplined(Code(), Notes())
  {
    var g, o := Code(), Notes();
    forall p, d, l, step | g.can(p, d, l, step) ensures StepOk(g, o, p, d, l, step) {
      if g.inside(l) {
        forall d0, q ensures InsideOk(g, o, p, d0, q, d, l, step) {}
      }
    }
  }

  ghost predicate Behaviour(states: seq<Machine>, actions: seq<Action<Data, Local>>) {
    && Run(Code(), states, actions) && states[0].d == Data(0, 0, false)
    && forall p :: 0 <= p < |states[0].procs| ==> states[0].procs[p].local.Outside?
  }

  /** Whenever log.lock is free, whoever sleeps in begin_op, or is about to, has to wait: for a
      commit, or for log space. */
  lemma NoStuckOperation(states: seq<Machine>, actions: seq<Action<Data, Local>>, i: nat, p: nat, c: Chan)
    requires Behaviour(states, actions) && i < |states| && states[i].lk.None?
    requires p < |states[i].procs| && Asleep(states[i].procs[p], c)
    ensures Blocked(states[i].d)
  {
    CodeDisciplined();
    NoLostWakeup(Code(), Notes(), states, actions, i, p, c);
  }

  // ----- Who counts, who commits -----

  /** From begin_op's count to end_op's. */
  predicate InOp(l: Local) {
    l.Begun? || l.Busy? || l.Writing? || l.Written? || l.Ending?
  }

  predicate InCommit(l: Local) {
    l.Last? || l.Committing? || l.Committed? || l.Clearing?
  }

  function Count(ls: seq<Local>): nat {
    if ls == [] then 0 else Count(ls[1..]) + (if InOp(ls[0]) then 1 else 0)
  }

  lemma {:induction false} CountUpdate(ls: seq<Local>, p: nat, l: Local)
    requires p < |ls|
    ensures Count(ls[p := l]) + (if InOp(ls[p]) then 1 else 0) == Count(ls) + (if InOp(l) then 1 else 0)
  {
    if p == 0 {
      assert ls[p := l][1..] == ls[1..];
    } else {
      assert ls[p := l][1..] == ls[1..][p - 1 := l];
      CountUpdate(ls[1..], p - 1, l);
    }
  }

  lemma {:induction false} CountSome(ls: seq<Local>)
    ensures Count(ls) > 0 <==> exists p :: 0 <= p < |ls| && InOp(ls[p])
  {
    if ls != [] {
      CountSome(ls[1..]);
      if q :| 0 <= q < |ls[1..]| && InOp(ls[1..][q]) { assert InOp(ls[q + 1]); }
      if q :| 0 <= q < |ls| && InOp(ls[q]) { assert q > 0 ==> InOp(ls[1..][q - 1]); }
    }
  }

  predicate ProcOk(d: Data, ls: seq<Local>, p: nat) {
    p < |ls| ==>
      && (InCommit(ls[p]) ==> d.committing && forall q :: 0 <= q < |ls| && InCommit(ls[q]) ==> q == p)
      && (ls[p].Counting? ==> !d.committing)
  }

  /** Somebody will still commit what is logged. */
  predicate Pending(l: Local) {
    InOp(l) || l.Counting? || l.Last? || l.Committing?
  }

  predicate Orderly(d: Data, ls: seq<Local>) {
    && d.outstanding == Count(ls) && (forall p: nat :: p < |ls| ==> ProcOk(d, ls, p))
    && (d.committing ==> d.outstanding == 0 && exists p :: 0 <= p < |ls| && InCommit(ls[p]))
    && (d.n > 0 ==> exists p :: 0 <= p < |ls| && Pending(ls[p]))
  }

  lemma StepProcs(p: nat, d: Data, ls: seq<Local>, step: Step<Data, Local>, q: nat)
    requires Orderly(d, ls) && p < |ls| && Alone(Code(), Notes(), ls, p) && Next(d, ls[p], step)
    ensures ProcOk(DataAfter(d, step), LocalsAfter(ls, p, step), q)
  {
    var ls' := LocalsAfter(ls, p, step);
    assert ProcOk(d, ls, p) && ProcOk(d, ls, q);
    CountSome(ls);
    if q < |ls| && InCommit(ls'[q]) {
      forall r | 0 <= r < |ls'| && InCommit(ls'[r]) ensures r == q { assert ProcOk(d, ls, r); }
    }
  }

  lemma StepOrderly(p: nat, d: Data, ls: seq<Local>, step: Step<Data, Local>)
    requires Orderly(d, ls) && p < |ls| && Alone(Code(), Notes(), ls, p) && Next(d, ls[p], step)
    ensures Orderly(DataAfter(d, step), LocalsAfter(ls, p, step))
  {
    var ls', d' := LocalsAfter(ls, p, step), DataAfter(d, step);
    CountUpdate(ls, p, step.l);
    CountSome(ls);
    CountSome(ls');
    assert ProcOk(d, ls, p);
    forall q: nat | q < |ls'| ensures ProcOk(d', ls', q) { StepProcs(p, d, ls, step, q); }
    if d'.committing {
      if d.committing {
        var q :| 0 <= q < |ls| && InCommit(ls[q]);
        assert InCommit(ls'[q]);
      } else {
        assert InCommit(ls'[p]);
      }
    }
    if d'.n > 0 {
      if Pending(ls'[p]) {
      } else if d'.outstanding > 0 {
        var q :| 0 <= q < |ls'| && InOp(ls'[q]);
        assert Pending(ls'[q]);
      } else {
        var q :| 0 <= q < |ls| && Pending(ls[q]);
        assert Pending(ls'[q]);
      }
    }
  }

  lemma CodeOrderly()
    ensures Keeps(Code(), Notes(), (d, ls) => Orderly(d, ls))
  {
    var g := Code();
    forall p: nat, d: Data, ls: seq<Local>, step |
        Orderly(d, ls) && p < |ls| && Alone(g, Notes(), ls, p) && g.can(p, d, ls[p], step)
      ensures Orderly(DataAfter(d, step), LocalsAfter(ls, p, step))
    {
      StepOrderly(p, d, ls, step);
    }
  }

  lemma AlwaysOrderly(states: seq<Machine>, actions: seq<Action<Data, Local>>, i: nat)
    requires Behaviour(states, actions) && i < |states|
    ensures Orderly(states[i].d, Locals(states[i]))
  {
    CodeDisciplined();
    CodeOrderly();
    CountSome(Locals(states[0]));
    RunKeeps(Code(), Notes(), (d, ls) => Orderly(d, ls), states, actions, i);
  }

  /** A commit runs without log.lock, but alone: while a process is in it log.committing is set
      and nobody is in an operation; and end_op's panic is unreachable. */
  lemma CommitsAlone(states: seq<Machine>, actions: seq<Action<Data, Local>>, i: nat, p: nat, q: nat)
    requires Behaviour(states, actions) && i < |states| && p < |states[i].procs| && q < |states[i].procs|
    ensures var d, l, m := states[i].d, states[i].procs[p].local, states[i].procs[q].local;
      && (InCommit(l) ==> d.committing && !InOp(m) && (InCommit(m) ==> p == q))
      && (l.Counting? ==> !d.committing) && (InOp(l) ==> d.outstanding > 0 && !d.committing)
  {
    AlwaysOrderly(states, actions, i);
    var ls := Locals(states[i]);
    assert ProcOk(states[i].d, ls, p) && InOp(ls[p]) == InOp(states[i].procs[p].local);
    assert InOp(ls[q]) == InOp(states[i].procs[q].local) && InCommit(ls[q]) == InCommit(states[i].procs[q].local);
    CountSome(ls);
  }

  /** Nobody waits in begin_op for nothing: when log.lock is free and a process sleeps there,
      another one is in an operation or commits. */
  lemma SomebodyWorks(states: seq<Machine>, actions: seq<Action<Data, Local>>, i: nat, p: nat, c: Chan) returns (q: nat)
    requires Behaviour(states, actions) && i < |states| && states[i].lk.None?
    requires p < |states[i].procs| && Asleep(states[i].procs[p], c)
    ensures q < |states[i].procs| && (InOp(states[i].procs[q].local) || InCommit(states[i].procs[q].local))
  {
    var s := states[i];
    var ls := Locals(s);
    NoStuckOperation(states, actions, i, p, c);
    AlwaysOrderly(states, actions, i);
    CodeDisciplined();
    RunInv(Code(), Notes(), states, actions, i);
    CountSome(ls);
    if s.d.committing {
      q :| q < |ls| && InCommit(ls[q]);
    } else if s.d.outstanding > 0 {
      q :| q < |ls| && InOp(ls[q]);
    } else {
      q :| q < |ls| && Pending(ls[q]);
      assert LkOk(Code(), Notes(), s, q);
    }
  }

  /** In every run a process always has a next step: neither end_op's panic nor the guard on what
      a commit relies on ever stops one. */
  lemma AlwaysAStep(states: seq<Machine>, actions: seq<Action<Data, Local>>, i: nat, p: nat)
      returns (step: Step<Data, Local>)
    requires Behaviour(states, actions) && i < |states| && p < |states[i].procs|
    ensures Next(states[i].d, states[i].procs[p].local, step)
  {
    CommitsAlone(states, actions, i, p, p);
    var d, l := states[i].d, states[i].procs[p].local;
    match l
    case Outside => step := Enter(Beginning);
    case Beginning =>
      step := if Blocked(d) then Sleep(LOG, Beginning) else Set(d.(outstanding := d.outstanding + 1), Begun);
    case Busy => step := Enter(Ending);
    case Ending => step := Set(d.(outstanding := d.outstanding - 1), Counting);
    case Counting => step := if d.outstanding == 0 then Set(d.(committing := true), Last) else Wake(LOG, Over);
    case Last => step := Leave(Committing);
    case Over => step := Leave(Outside);
    case Committing => step := Set(d.(n := 0), Committed);
    case Committed => step := Enter(Clearing);
    case Clearing => step := Set(d.(committing := false), Unmarked);
    case Unmarked => step := Wake(LOG, Over);
    case _ => step := Leave(Busy);
  }
}
