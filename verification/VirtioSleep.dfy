/** The waiting in virtio_disk_rw and virtio_disk_intr as a program of SleepWakeup: requests
    sleep on `&disk.free[0]` for three descriptors, and on their buffer for the device. */
module VirtioSleep {
  import opened Common
  import opened SleepWakeup

  const NUM := 8
  const FREE: Chan := 0   // &disk.free[0]

  /** `free` counts the free descriptors; `busy` are the buffers whose flag `disk` is set; `done`
      is history: the completions that virtio_disk_intr has handled. */
  datatype Data = Data(free: int, busy: set<nat>, done: seq<nat>)

  /** `from` is history: how many completions had been handled when the request was issued. */
  datatype Local =
    | Outside
    | Trying(b: nat)                         // before alloc3_desc
    | Failed(b: nat)                         // alloc3_desc has freed what it got, with one wakeup or two
    | Issued(b: nat, from: nat)              // has the descriptors and has told the device
    | Freeing(b: nat, from: nat, k: nat)     // free_chain has freed `k` descriptors
    | Freed(b: nat, from: nat, k: nat)       // and one more, without the wakeup yet
    | Over(b: nat, from: nat)
    | Handling                               // in virtio_disk_intr's loop
    | Completing(b: nat)                     // the flag of `b` is cleared

  type Machine = State<Data, Local>

  /** A buffer's channel. */
  function Buf(b: nat): Chan {
    b + 1
  }

  function Completed(d: Data, b: nat): Data {
    d.(busy := d.busy - {b}, done := d.done + [b])
  }

  predicate Next(d: Data, l: Local, step: Step<Data, Local>) {
    match l
    case Outside => step == Enter(Handling) || (step.Enter? && step.l.Trying?)
    case Trying(b) =>
      if d.free >= 3 then
        step == Set(d.(free := d.free - 3, busy := d.busy + {b}), Issued(b, |d.done|))
      else if d.free > 0 then step == Wake(FREE, Failed(b))
      else step == Sleep(FREE, Trying(b))
    case Failed(b) => step == Sleep(FREE, Trying(b))
    case Issued(b, from) =>
      if b in d.busy then step == Sleep(Buf(b), Issued(b, from)) else step == Set(d, Freeing(b, from, 0))
    case Freeing(b, from, k) => step == Set(d.(free := d.free + 1), Freed(b, from, k))
    case Freed(b, from, k) => step == Wake(FREE, if k < 2 then Freeing(b, from, k + 1) else Over(b, from))
    case Over(_, _) => step == Leave(Outside)
    case Handling =>
      step == Leave(Outside) || (step.Set? && step.l.Completing? && step.d == Completed(d, step.l.b))
    case Completing(b) => step == Wake(Buf(b), Handling)
  }

  predicate Blocked(d: Data, c: Chan) {
    if c == FREE then d.free < 3 else c - 1 in d.busy
  }

  function Code(): Program<Data, Local> {
    Program((p: nat, d: Data, l: Local, step: Step<Data, Local>) => Next(d, l, step),
            (l: Local) => !l.Outside?,
            (d: Data, c: Chan) => Blocked(d, c))
  }

  predicate BufferPaid(d0: Data, quiet: set<Chan>, d: Data, b: nat) {
    b in d0.busy ==> b in d.busy || Buf(b) in quiet
  }

  ghost predicate BuffersPaid(d0: Data, quiet: set<Chan>, d: Data) {
    forall b: nat :: BufferPaid(d0, quiet, d, b)
  }

  ghost predicate Section(d0: Data, quiet: set<Chan>, d: Data, l: Local) {
    match l
    case Trying(_) => d == d0
    case Failed(_) => d == d0 && d.free < 3
    case Issued(_, _) => d.free <= d0.free && d0.busy <= d.busy
    case Freeing(_, _, _) => d0.busy <= d.busy
    case Freed(_, _, _) => d0.busy <= d.busy
    case Over(_, _) => d0.busy <= d.busy && FREE in quiet
    case Handling => d.free == d0.free && BuffersPaid(d0, quiet, d)
    case Completing(b) => d.free == d0.free && forall x: nat :: x != b ==> BufferPaid(d0, quiet, d, x)
    case Outside => false
  }

  ghost function Notes(): Outline<Data, Local> {
    Outline((d: Data) => true, (p, d0, quiet, d, l) => Section(d0, quiet, d, l),
            (p: nat, l: Local) => l.Trying? || l.Issued?)
  }

  lemma HandlerPays(p: nat, d0: Data, q: set<Chan>, d: Data, l: Local, step: Step<Data, Local>)
    requires (l.Handling? || l.Completing?) && Next(d, l, step)
    ensures InsideOk(Code(), Notes(), p, d0, q, d, l, step)
  {
    if Section(d0, q, d, l) {
      if l.Completing? {
        forall x: nat ensures BufferPaid(d0, q + {Buf(l.b)}, d, x) { assert x != l.b ==> BufferPaid(d0, q, d, x); }
      } else if step.Set? {
        forall x: nat | x != step.l.b ensures BufferPaid(d0, q, step.d, x) { assert BufferPaid(d0, q, d, x); }
      } else {
        forall c: Chan | Blocked(d0, c) ensures Blocked(d, c) || c in q {
          if c != FREE { assert BufferPaid(d0, q, d, c - 1); }
        }
      }
    }
  }

  lemma CodeDisciplined()
    ensures Disciplined(Code(), Notes())
  {
    var g, o := Code(), Notes();
    forall p, d, l, step | g.can(p, d, l, step) ensures StepOk(g, o, p, d, l, step) {
      if g.inside(l) {
        forall d0, q ensures InsideOk(g, o, p, d0, q, d, l, step) {
          if l.Handling? || l.Completing? { HandlerPays(p, d0, q, d, l, step); }
        }
      }
    }
  }

  ghost predicate Behaviour(states: seq<Machine>, actions: seq<Action<Data, Local>>) {
    && Run(Code(), states, actions) && states[0].d == Data(NUM, {}, [])
    && forall p :: 0 <= p < |states[0].procs| ==> states[0].procs[p].local.Outside?
  }

  /** Whenever vdisk_lock is free, whoever sleeps for descriptors, or is about to, cannot have
      three, and whoever sleeps for its buffer has a buffer that the device has not done. */
  lemma NoStuckRequest(states: seq<Machine>, actions: seq<Action<Data, Local>>, i: nat, p: nat, c: Chan)
    requires Behaviour(states, actions) && i < |states| && states[i].lk.None?
    requires p < |states[i].procs| && Asleep(states[i].procs[p], c)
    ensures if c == FREE then states[i].d.free < 3 else c - 1 in states[i].d.busy
  {
    CodeDisciplined();
    NoLostWakeup(Code(), Notes(), states, actions, i, p, c);
  }

  // ----- Where the descriptors are -----

  function Has(l: Local): nat {
    match l
    case Issued(_, _) => 3
    case Freeing(_, _, k) => if k <= 3 then 3 - k else 0
    case Freed(_, _, k) => if k <= 2 then 2 - k else 0
    case _ => 0
  }

  function Total(ls: seq<Local>): nat {
    if ls == [] then 0 else Has(ls[0]) + Total(ls[1..])
  }

  lemma {:induction false} TotalUpdate(ls: seq<Local>, p: nat, l: Local)
    requires p < |ls|
    ensures Total(ls[p := l]) + Has(ls[p]) == Total(ls) + Has(l)
  {
    if p == 0 {
      assert ls[p := l][1..] == ls[1..];
    } else {
      assert ls[p := l][1..] == ls[1..][p - 1 := l];
      TotalUpdate(ls[1..], p - 1, l);
    }
  }

  lemma {:induction false} TotalSome(ls: seq<Local>) returns (p: nat)
    requires Total(ls) > 0
    ensures p < |ls| && Has(ls[p]) > 0
  {
    if Has(ls[0]) > 0 {
      p := 0;
    } else {
      p := TotalSome(ls[1..]);
      p := p + 1;
    }
  }

  lemma {:induction false} TotalNone(ls: seq<Local>)
    requires forall p :: 0 <= p < |ls| ==> ls[p].Outside?
    ensures Total(ls) == 0
  {
    if ls != [] { TotalNone(ls[1..]); }
  }

  predicate Conserved(d: Data, ls: seq<Local>) {
    && d.free + Total(ls) == NUM
    && forall p :: 0 <= p < |ls| && (ls[p].Freeing? || ls[p].Freed?) ==> ls[p].k <= 2
  }

  lemma CodeConserves()
    ensures Keeps(Code(), Notes(), (d, ls) => Conserved(d, ls))
  {
    var g := Code();
    forall p: nat, d: Data, ls: seq<Local>, step |
        Conserved(d, ls) && p < |ls| && Alone(g, Notes(), ls, p) && g.can(p, d, ls[p], step)
      ensures Conserved(DataAfter(d, step), LocalsAfter(ls, p, step))
    {
      TotalUpdate(ls, p, step.l);
    }
  }

  /** A request waits for descriptors only while another one is with the device: whoever has
      descriptors, while the lock is free, sleeps on its buffer or is about to run again. */
  lemma OthersInFlight(states: seq<Machine>, actions: seq<Action<Data, Local>>, i: nat, p: nat) returns (q: nat)
    requires Behaviour(states, actions) && i < |states| && states[i].lk.None?
    requires p < |states[i].procs| && Asleep(states[i].procs[p], FREE)
    ensures q < |states[i].procs| && states[i].procs[q].local.Issued?
  {
    var s := states[i];
    NoStuckRequest(states, actions, i, p, FREE);
    CodeDisciplined();
    CodeConserves();
    TotalNone(Locals(states[0]));
    RunKeeps(Code(), Notes(), (d, ls) => Conserved(d, ls), states, actions, i);
    RunInv(Code(), Notes(), states, actions, i);
    q := TotalSome(Locals(s));
    assert LkOk(Code(), Notes(), s, q);
  }

  // ----- A request waits for its completion -----

  /** The completion of the request for `b` has been handled since the request was issued. */
  predicate Handled(d: Data, b: nat, from: nat) {
    from <= |d.done| && b in d.done[from..]
  }

  predicate RequestOk(d: Data, l: Local) {
    && (l.Issued? ==> l.from <= |d.done| && (l.b in d.busy || Handled(d, l.b, l.from)))
    && (l.Freeing? || l.Freed? || l.Over? ==> Handled(d, l.b, l.from))
  }

  lemma StaysHandled(d: Data, d': Data, l: Local)
    requires RequestOk(d, l)
    requires (d'.done == d.done && d.busy <= d'.busy) || exists b: nat :: d' == Completed(d, b)
    ensures RequestOk(d', l)
  {
    if d'.done != d.done && (l.Issued? || l.Freeing? || l.Freed? || l.Over?) {
      var b: nat :| d' == Completed(d, b);
      assert d'.done[l.from..] == d.done[l.from..] + [b];
    }
  }

  lemma StepRequest(d: Data, l: Local, step: Step<Data, Local>, m: Local)
    requires Next(d, l, step) && RequestOk(d, l) && RequestOk(d, m)
    ensures RequestOk(DataAfter(d, step), step.l) && RequestOk(DataAfter(d, step), m) && !step.Spawn?
  {
    if step.Set? {
      if l.Handling? { assert step.d == Completed(d, step.l.b); }
      StaysHandled(d, step.d, m);
      StaysHandled(d, step.d, l);
    }
  }

  /** In every run: a request gives up its descriptors only after the interrupt handler has seen
      its completion, and until then its buffer stays marked as the device's. */
  lemma {:induction false} WaitsForCompletion(states: seq<Machine>, actions: seq<Action<Data, Local>>, i: nat, p: nat)
    requires Behaviour(states, actions) && i < |states| && p < |states[i].procs|
    ensures var d, l := states[i].d, states[i].procs[p].local;
      && (l.Issued? ==> l.from <= |d.done| && (l.b in d.busy || l.b in d.done[l.from..]))
      && (l.Freeing? || l.Freed? || l.Over? ==> l.from <= |d.done| && l.b in d.done[l.from..])
  {
    if i > 0 {
      var s, a := states[i - 1], actions[i - 1];
      assert Moves(Code(), s, a, states[i]);
      AskLocals(Code(), s, a);
      assert |Locals(states[i])| == |Locals(s)|;
      WaitsForCompletion(states, actions, i - 1, p);
      if a.Ask? {
        WaitsForCompletion(states, actions, i - 1, a.p);
        StepRequest(s.d, s.procs[a.p].local, a.step, s.procs[p].local);
      }
      assert Locals(states[i])[p] == states[i].procs[p].local;
    }
  }

  /** Whatever the driver's data, the code knows what to do next. */
  lemma AlwaysAStep(d: Data, l: Local) returns (step: Step<Data, Local>)
    ensures Next(d, l, step)
  {
    match l
    case Outside => step := Enter(Handling);
    case Trying(b) =>
      step := if d.free >= 3 then Set(d.(free := d.free - 3, busy := d.busy + {b}), Issued(b, |d.done|))
              else if d.free > 0 then Wake(FREE, Failed(b)) else Sleep(FREE, Trying(b));
    case Failed(b) => step := Sleep(FREE, Trying(b));
    case Issued(b, from) =>
      step := if b in d.busy then Sleep(Buf(b), Issued(b, from)) else Set(d, Freeing(b, from, 0));
    case Freeing(b, from, k) => step := Set(d.(free := d.free + 1), Freed(b, from, k));
    case Freed(b, from, k) => step := Wake(FREE, if k < 2 then Freeing(b, from, k + 1) else Over(b, from));
    case Completing(b) => step := Wake(Buf(b), Handling);
    case _ => step := Leave(Outside);
  }
}
