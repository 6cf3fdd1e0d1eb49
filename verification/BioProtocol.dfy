/** bget, bread, bwrite, brelse, bpin and bunpin as interleaved steps of any number of
    kernel threads.  `bcache.lock` is released before the buffer's sleep-lock is taken, so
    a thread can wait for a buffer that others use and release meanwhile. */
module BioProtocol {
  import opened Common
  import opened LogDisk

  datatype Slot = Slot(bound: bool, blockno: nat, valid: bool, refcnt: int, holder: Option<nat>, data: Block)

  /** One use of the cache, from bread to brelse. */
  datatype User =
    | Idle
    | Waiting(slot: nat, bn: nat)    // bget has chosen a buffer and is in acquiresleep
    | Holding(slot: nat, bn: nat)    // acquiresleep has returned
    | Leaving(slot: nat, bn: nat)    // brelse has released the sleep-lock, not yet the reference

  /** `pins` counts bpin minus bunpin per buffer; `view` is the reference block array.
      Both are history. */
  datatype State = State(slots: seq<Slot>, users: seq<User>, disk: DiskImage, pins: seq<nat>, view: DiskImage)

  datatype Action =
    | Hit(u: nat, bn: nat, slot: nat)
    | Recycle(u: nat, bn: nat, slot: nat)
    | Lock(u: nat)
    | Load(u: nat)
    | Modify(u: nat, data: Block)
    | Bwrite(u: nat)
    | Unlock(u: nat)
    | Unref(u: nat)
    | Pin(u: nat)
    | Unpin(u: nat)

  /** `b->dev` and `b->blockno` name block `bn`. */
  predicate Names(s: Slot, bn: nat) {
    s.bound && s.blockno == bn
  }

  predicate HoldsValid(s: State, u: nat) {
    && u < |s.users| && s.users[u].Holding? && s.users[u].slot < |s.slots|
    && s.slots[s.users[u].slot].valid
  }

  ghost predicate Enabled(s: State, a: Action) {
    && a.u < |s.users| && |s.pins| == |s.slots|
    && var user := s.users[a.u];
       match a
       case Hit(_, bn, i) => user.Idle? && i < |s.slots| && Names(s.slots[i], bn)
       case Recycle(_, bn, i) =>
         && user.Idle? && i < |s.slots| && bn < |s.disk| && s.slots[i].refcnt == 0
         && forall j :: 0 <= j < |s.slots| ==> !Names(s.slots[j], bn)
       case Lock(_) => user.Waiting? && user.slot < |s.slots| && s.slots[user.slot].holder.None?
       case Load(_) =>
         user.Holding? && user.slot < |s.slots| && !s.slots[user.slot].valid && s.slots[user.slot].blockno < |s.disk|
       case Modify(_, _) => HoldsValid(s, a.u) && user.bn < |s.view|
       case Bwrite(_) => HoldsValid(s, a.u) && s.slots[user.slot].blockno < |s.disk|
       // callers never let go of a change that is neither written nor pinned
       case Unlock(_) =>
         && user.Holding? && user.slot < |s.slots|
         && (s.slots[user.slot].valid && s.pins[user.slot] == 0 ==>
               user.bn < |s.disk| && s.slots[user.slot].data == s.disk[user.bn])
       case Unref(_) => user.Leaving? && user.slot < |s.slots|
       case Pin(_) => HoldsValid(s, a.u)
       case Unpin(_) => HoldsValid(s, a.u) && s.pins[user.slot] > 0
  }

  ghost function Do(s: State, a: Action): State
    requires Enabled(s, a)
  {
    var user := s.users[a.u];
    match a
    case Hit(u, bn, i) =>
      s.(slots := s.slots[i := s.slots[i].(refcnt := s.slots[i].refcnt + 1)], users := s.users[u := Waiting(i, bn)])
    case Recycle(u, bn, i) =>
      s.(slots := s.slots[i := s.slots[i].(bound := true, blockno := bn, valid := false, refcnt := 1)],
         users := s.users[u := Waiting(i, bn)])
    case Lock(u) =>
      s.(slots := s.slots[user.slot := s.slots[user.slot].(holder := Some(u))],
         users := s.users[u := Holding(user.slot, user.bn)])
    case Load(u) =>
      var b := s.slots[user.slot];
      s.(slots := s.slots[user.slot := b.(valid := true, data := s.disk[b.blockno])])
    case Modify(u, data) =>
      s.(slots := s.slots[user.slot := s.slots[user.slot].(data := data)], view := s.view[user.bn := data])
    case Bwrite(u) =>
      var b := s.slots[user.slot];
      s.(disk := s.disk[b.blockno := b.data])
    case Unlock(u) =>
      s.(slots := s.slots[user.slot := s.slots[user.slot].(holder := None)],
         users := s.users[u := Leaving(user.slot, user.bn)])
    case Unref(u) =>
      s.(slots := s.slots[user.slot := s.slots[user.slot].(refcnt := s.slots[user.slot].refcnt - 1)],
         users := s.users[u := Idle])
    case Pin(u) =>
      s.(slots := s.slots[user.slot := s.slots[user.slot].(refcnt := s.slots[user.slot].refcnt + 1)],
         pins := s.pins[user.slot := s.pins[user.slot] + 1])
    case Unpin(u) =>
      s.(slots := s.slots[user.slot := s.slots[user.slot].(refcnt := s.slots[user.slot].refcnt - 1)],
         pins := s.pins[user.slot := s.pins[user.slot] - 1])
  }

  ghost predicate Init(s: State) {
    && (forall i :: 0 <= i < |s.slots| ==>
          !s.slots[i].bound && !s.slots[i].valid && s.slots[i].refcnt == 0 && s.slots[i].holder.None?)
    && (forall u :: 0 <= u < |s.users| ==> s.users[u].Idle?)
    && |s.pins| == |s.slots| && (forall i :: 0 <= i < |s.pins| ==> s.pins[i] == 0)
    && s.view == s.disk
  }

  ghost predicate Run(states: seq<State>, actions: seq<Action>) {
    && |states| == |actions| + 1
    && Init(states[0])
    && forall i :: 0 <= i < |actions| ==> Enabled(states[i], actions[i]) && states[i + 1] == Do(states[i], actions[i])
  }

  // ----- The invariant -----

  /** How many uses of the cache refer to buffer `i`. */
  ghost function Users(users: seq<User>, i: nat): nat {
    if users == [] then 0
    else Users(users[1..], i) + (if !users[0].Idle? && users[0].slot == i then 1 else 0)
  }

  ghost function At(user: User, i: nat): nat {
    if !user.Idle? && user.slot == i then 1 else 0
  }

  lemma {:induction false} UsersUpdate(users: seq<User>, u: nat, v: User, i: nat)
    requires u < |users|
    ensures Users(users[u := v], i) == Users(users, i) - At(users[u], i) + At(v, i)
    ensures Users(users, i) >= At(users[u], i)
  {
    var after := users[u := v];
    if u == 0 {
      assert after[1..] == users[1..];
    } else {
      assert after[1..] == users[1..][u - 1 := v];
      UsersUpdate(users[1..], u - 1, v, i);
    }
  }

  lemma {:induction false} NoUsers(users: seq<User>, i: nat)
    requires forall u :: 0 <= u < |users| ==> users[u].Idle?
    ensures Users(users, i) == 0
  {
    if users != [] {
      NoUsers(users[1..], i);
    }
  }

  ghost predicate SlotOk(s: State, i: nat)
    requires i < |s.slots| == |s.pins| && |s.view| == |s.disk|
  {
    var b := s.slots[i];
    && b.refcnt == s.pins[i] + Users(s.users, i)
    && (b.bound ==> b.blockno < |s.disk|)
    && (!b.bound ==> b.refcnt == 0 && !b.valid)
    && (b.bound && b.valid ==> b.data == s.view[b.blockno])
    && (b.bound && !b.valid ==> s.disk[b.blockno] == s.view[b.blockno] && s.pins[i] == 0)
    && (b.bound && b.valid && b.holder.None? && s.pins[i] == 0 ==> s.disk[b.blockno] == s.view[b.blockno])
    && (b.holder.Some? ==>
          b.holder.value < |s.users| && s.users[b.holder.value].Holding? && s.users[b.holder.value].slot == i)
  }

  ghost predicate UserOk(s: State, u: nat)
    requires u < |s.users|
  {
    var user := s.users[u];
    && (!user.Idle? ==> user.slot < |s.slots| && Names(s.slots[user.slot], user.bn))
    && (user.Holding? ==> s.slots[user.slot].holder == Some(u))
  }

  /** No two buffers hold the same block. */
  ghost predicate Unique(slots: seq<Slot>) {
    forall i, j :: 0 <= i < j < |slots| && slots[i].bound && slots[j].bound ==> slots[i].blockno != slots[j].blockno
  }

  ghost predicate BlockOk(s: State, bn: nat)
    requires |s.view| == |s.disk|
  {
    bn < |s.disk| && (forall i :: 0 <= i < |s.slots| ==> !Names(s.slots[i], bn)) ==> s.disk[bn] == s.view[bn]
  }

  ghost predicate Inv(s: State) {
    && |s.pins| == |s.slots| && |s.view| == |s.disk|
    && Unique(s.slots)
    && (forall i: nat :: i < |s.slots| ==> SlotOk(s, i))
    && (forall u: nat :: u < |s.users| ==> UserOk(s, u))
    && (forall bn: nat :: BlockOk(s, bn))
  }

  lemma InitOk(s: State)
    requires Init(s)
    ensures Inv(s)
  {
    forall i: nat | i < |s.slots| ensures SlotOk(s, i) {
      NoUsers(s.users, i);
    }
    forall u: nat | u < |s.users| ensures UserOk(s, u) {
    }
    forall bn: nat ensures BlockOk(s, bn) {
    }
  }

  /** A step by user `u` that touches one buffer keeps every other buffer in order. */
  lemma OthersOk(s: State, t: State, u: nat, i: nat, j: nat)
    requires Inv(s) && |t.slots| == |s.slots| == |t.pins| && |t.view| == |t.disk| == |s.disk|
    requires u < |s.users| == |t.users| && t.users == s.users[u := t.users[u]]
    requires i < |s.slots| && j < |s.slots| && j != i
    requires t.slots[j] == s.slots[j] && t.pins[j] == s.pins[j]
    requires s.users[u].Idle? || s.users[u].slot == i
    requires t.users[u].Idle? || t.users[u].slot == i
    requires forall x :: 0 <= x < |s.disk| && x != s.slots[i].blockno ==>
        t.disk[x] == s.disk[x] && t.view[x] == s.view[x]
    requires t.disk != s.disk || t.view != s.view ==> s.slots[i].bound
    ensures SlotOk(t, j)
  {
    assert SlotOk(s, j);
    UsersUpdate(s.users, u, t.users[u], j);
    if s.slots[i].bound && s.slots[j].bound {
      assert s.slots[i].blockno != s.slots[j].blockno;
    }
  }

  /** The buffer that a step works on. */
  ghost function Target(s: State, a: Action): nat
    requires Enabled(s, a)
  {
    if a.Hit? || a.Recycle? then a.slot else s.users[a.u].slot
  }

  /** A buffer without references is not locked. */
  lemma UnreferencedUnlocked(s: State, i: nat)
    requires Inv(s) && i < |s.slots| && s.slots[i].refcnt == 0
    ensures s.slots[i].holder.None? && s.pins[i] == 0 && Users(s.users, i) == 0
  {
    assert SlotOk(s, i);
    if s.slots[i].holder.Some? {
      UsersUpdate(s.users, s.slots[i].holder.value, Idle, i);
    }
  }

  lemma SlotsOk(s: State, a: Action)
    requires Inv(s) && Enabled(s, a)
    ensures var t := Do(s, a);
      |t.pins| == |t.slots| == |s.slots| && |t.view| == |t.disk| == |s.disk| &&
      forall i: nat :: i < |t.slots| ==> SlotOk(t, i)
  {
    var t, i := Do(s, a), Target(s, a);
    assert UserOk(s, a.u) && SlotOk(s, i);
    UsersUpdate(s.users, a.u, t.users[a.u], i);
    if a.Recycle? {
      UnreferencedUnlocked(s, i);
      assert BlockOk(s, a.bn);
    }
    forall j: nat | j < |t.slots| ensures SlotOk(t, j) {
      if j != i {
        OthersOk(s, t, a.u, i, j);
      }
    }
  }

  lemma UsersOk(s: State, a: Action)
    requires Inv(s) && Enabled(s, a)
    ensures forall u: nat :: u < |Do(s, a).users| ==> UserOk(Do(s, a), u)
  {
    var t, i := Do(s, a), Target(s, a);
    assert UserOk(s, a.u) && SlotOk(s, i);
    forall u: nat | u < |t.users| ensures UserOk(t, u) {
      assert UserOk(s, u);
      UsersUpdate(s.users, u, s.users[u], i);
    }
  }

  lemma BlocksOk(s: State, a: Action)
    requires Inv(s) && Enabled(s, a)
    ensures Unique(Do(s, a).slots)
    ensures |Do(s, a).view| == |Do(s, a).disk| && forall bn: nat :: BlockOk(Do(s, a), bn)
  {
    var t, i := Do(s, a), Target(s, a);
    assert UserOk(s, a.u) && SlotOk(s, i);
    if a.Recycle? {
      UnreferencedUnlocked(s, i);
    }
    forall bn: nat ensures BlockOk(t, bn) {
      assert BlockOk(s, bn);
      if forall j :: 0 <= j < |t.slots| ==> !Names(t.slots[j], bn) {
        assert !Names(t.slots[i], bn);
        if !Names(s.slots[i], bn) {
          forall j | 0 <= j < |s.slots| ensures !Names(s.slots[j], bn) {
            assert j == i || s.slots[j] == t.slots[j];
          }
        }
      }
    }
  }

  lemma StepOk(s: State, a: Action)
    requires Inv(s) && Enabled(s, a)
    ensures Inv(Do(s, a))
  {
    SlotsOk(s, a);
    UsersOk(s, a);
    BlocksOk(s, a);
  }

  lemma {:induction false} RunOk(states: seq<State>, actions: seq<Action>, i: nat)
    requires Run(states, actions) && i <= |actions|
    ensures Inv(states[i])
  {
    if i == 0 {
      InitOk(states[0]);
    } else {
      RunOk(states, actions, i - 1);
      StepOk(states[i - 1], actions[i - 1]);
    }
  }

  /** In every run: a thread that waited in bget, however long, holds the buffer of the
      block it asked for; it is the only holder; and once loaded the buffer shows the last
      change that any thread made to the block. */
  lemma BreadIsRight(states: seq<State>, actions: seq<Action>, n: nat, u: nat, v: nat)
    requires Run(states, actions) && n <= |actions|
    requires u < |states[n].users| && states[n].users[u].Holding? && v < |states[n].users|
    ensures var s, user := states[n], states[n].users[u];
      && user.slot < |s.slots| && Names(s.slots[user.slot], user.bn)
      && user.bn < |s.disk| == |s.view|
      && (s.slots[user.slot].valid ==> s.slots[user.slot].data == s.view[user.bn])
      && (!s.slots[user.slot].valid ==> s.disk[user.bn] == s.view[user.bn])
      && (s.users[v].Holding? && s.users[v].bn == user.bn ==> u == v)
  {
    var s := states[n];
    RunOk(states, actions, n);
    assert UserOk(s, u) && UserOk(s, v) && SlotOk(s, s.users[u].slot);
    if s.users[v].Holding? && s.users[v].bn == s.users[u].bn {
      assert s.users[u].slot == s.users[v].slot;
    }
  }

  /** In every run: no block is in two buffers, reference counts are exactly the uses plus
      the pins, and a buffer that anybody waits for, holds or has pinned is not recycled. */
  lemma CountsAreRight(states: seq<State>, actions: seq<Action>, n: nat, i: nat)
    requires Run(states, actions) && n <= |actions| && i < |states[n].slots|
    ensures Unique(states[n].slots) && |states[n].pins| == |states[n].slots|
    ensures states[n].slots[i].refcnt == states[n].pins[i] + Users(states[n].users, i)
    ensures forall a :: Enabled(states[n], a) && a.Recycle? && a.slot == i ==>
              states[n].pins[i] == 0 && forall u :: 0 <= u < |states[n].users| ==>
                states[n].users[u].Idle? || states[n].users[u].slot != i
  {
    var s := states[n];
    RunOk(states, actions, n);
    assert SlotOk(s, i);
    forall u | 0 <= u < |s.users| && s.slots[i].refcnt == 0 ensures s.users[u].Idle? || s.users[u].slot != i {
      UsersUpdate(s.users, u, Idle, i);
    }
  }

  /** In every run: after bread has loaded a buffer its holder has the last change made to its
      block, and after bwrite the disk has it. */
  lemma TransfersAreRight(states: seq<State>, actions: seq<Action>, n: nat)
    requires Run(states, actions) && n < |actions| && (actions[n].Load? || actions[n].Bwrite?)
    ensures var t, u := states[n + 1], actions[n].u;
      && HoldsValid(t, u) && t.users[u].bn < |t.disk| == |t.view|
      && t.slots[t.users[u].slot].data == t.view[t.users[u].bn]
      && (actions[n].Bwrite? ==> t.disk[t.users[u].bn] == t.view[t.users[u].bn])
  {
    var s, a := states[n], actions[n];
    assert Enabled(s, a) && states[n + 1] == Do(s, a);
    RunOk(states, actions, n);
    RunOk(states, actions, n + 1);
    assert UserOk(s, a.u) && UserOk(states[n + 1], a.u) && SlotOk(s, s.users[a.u].slot);
    assert SlotOk(states[n + 1], s.users[a.u].slot);
  }

  /** In every run: the disk has the last change made to a block whenever nobody holds it and it
      is not pinned. */
  lemma CleanWhenFree(states: seq<State>, actions: seq<Action>, n: nat, bn: nat)
    requires Run(states, actions) && n <= |actions| && bn < |states[n].disk|
    requires forall i :: 0 <= i < |states[n].slots| && i < |states[n].pins| && Names(states[n].slots[i], bn) ==>
               states[n].slots[i].holder.None? && states[n].pins[i] == 0
    ensures bn < |states[n].view| && states[n].disk[bn] == states[n].view[bn]
  {
    var s := states[n];
    RunOk(states, actions, n);
    assert BlockOk(s, bn);
    if i: nat :| i < |s.slots| && Names(s.slots[i], bn) { assert SlotOk(s, i); }
  }

  // ----- Every use can end, and every bread can succeed -----

  function Togo(user: User): nat {
    match user
    case Idle => 0
    case Leaving(_, _) => 1
    case Holding(_, _) => 2
    case Waiting(_, _) => 3
  }

  function Left(users: seq<User>): nat {
    if users == [] then 0 else Togo(users[0]) + Left(users[1..])
  }

  lemma {:induction false} LeftUpdate(users: seq<User>, u: nat, v: User)
    requires u < |users|
    ensures Left(users[u := v]) == Left(users) - Togo(users[u]) + Togo(v)
  {
    var after := users[u := v];
    if u == 0 {
      assert after[1..] == users[1..];
    } else {
      assert after[1..] == users[1..][u - 1 := v];
      LeftUpdate(users[1..], u - 1, v);
    }
  }

  lemma {:induction false} LeftSome(users: seq<User>) returns (u: nat)
    requires Left(users) > 0
    ensures u < |users| && !users[u].Idle?
  {
    if !users[0].Idle? {
      u := 0;
    } else {
      u := LeftSome(users[1..]);
      u := u + 1;
    }
  }

  lemma {:induction false} LeftNone(users: seq<User>)
    requires Left(users) == 0
    ensures forall u :: 0 <= u < |users| ==> users[u].Idle?
  {
    if users != [] { LeftNone(users[1..]); }
  }

  /** The step that brings user `u`, or the one it waits for, nearer to its end: a holder whose
      change is neither on the disk nor pinned writes it, the others let go. */
  lemma NextToEnd(s: State, u: nat) returns (a: Action)
    requires Inv(s) && u < |s.users| && !s.users[u].Idle?
    ensures Enabled(s, a) && (a.Lock? || a.Bwrite? || a.Unlock? || a.Unref?)
    ensures if a.Bwrite? then Do(s, a).users == s.users && Enabled(Do(s, a), Unlock(a.u))
            else Left(Do(s, a).users) < Left(s.users)
  {
    var user := s.users[u];
    assert UserOk(s, u) && SlotOk(s, user.slot);
    var v := if user.Waiting? && s.slots[user.slot].holder.Some? then s.slots[user.slot].holder.value else u;
    var other := s.users[v];
    assert UserOk(s, v);
    a := if other.Waiting? then Lock(v) else if other.Leaving? then Unref(v)
         else if s.slots[other.slot].valid && s.slots[other.slot].data != s.disk[other.bn] then Bwrite(v)
         else Unlock(v);
    if !a.Bwrite? { LeftUpdate(s.users, v, Do(s, a).users[v]); }
  }

  /** The same buffers, with the same names and pins, and the same changes made to the blocks. */
  ghost predicate SameNames(s: State, t: State) {
    && |t.slots| == |s.slots| && t.pins == s.pins && |t.users| == |s.users| && |t.disk| == |s.disk| && t.view == s.view
    && (forall i :: 0 <= i < |s.slots| ==>
          t.slots[i].bound == s.slots[i].bound && t.slots[i].blockno == s.slots[i].blockno)
  }

  lemma Extend(states: seq<State>, actions: seq<Action>, a: Action)
    requires Run(states, actions) && Enabled(states[|actions|], a)
    ensures Run(states + [Do(states[|actions|], a)], actions + [a])
  {
    var states', actions' := states + [Do(states[|actions|], a)], actions + [a];
    forall i | 0 <= i < |actions'|
      ensures Enabled(states'[i], actions'[i]) && states'[i + 1] == Do(states'[i], actions'[i])
    {
      if i < |actions| { assert states'[i] == states[i] && states'[i + 1] == states[i + 1]; }
    }
  }

  lemma TowardsEnd(states: seq<State>, actions: seq<Action>) returns (states': seq<State>, actions': seq<Action>)
    requires Run(states, actions) && Left(states[|actions|].users) > 0
    ensures Run(states', actions') && actions <= actions' && states <= states'
    ensures var s, t := states[|actions|], states'[|actions'|];
      SameNames(s, t) && Left(t.users) < Left(s.users)
  {
    RunOk(states, actions, |actions|);
    var s := states[|actions|];
    var u := LeftSome(s.users);
    var a := NextToEnd(s, u);
    Extend(states, actions, a);
    states', actions' := states + [Do(s, a)], actions + [a];
    if a.Bwrite? {
      var t := states'[|actions'|];
      Extend(states', actions', Unlock(a.u));
      LeftUpdate(t.users, a.u, Do(t, Unlock(a.u)).users[a.u]);
      states', actions' := states' + [Do(t, Unlock(a.u))], actions' + [Unlock(a.u)];
    }
  }

  /** No run ends where the users of the cache block each other: from its last state they can all
      go on to release what they hold, and then the disk has the last change of every block that
      is not pinned. */
  lemma AllCanEnd(states: seq<State>, actions: seq<Action>) returns (states': seq<State>, actions': seq<Action>)
    requires Run(states, actions)
    ensures Run(states', actions') && actions <= actions' && states <= states'
    ensures var s, t := states[|actions|], states'[|actions'|];
      && SameNames(s, t) && (forall u :: 0 <= u < |t.users| ==> t.users[u].Idle?)
      && |t.pins| == |t.slots| && (forall i :: 0 <= i < |t.slots| ==> t.slots[i].refcnt == t.pins[i])
      && forall bn :: 0 <= bn < |t.disk| && Unpinned(t, bn) ==> bn < |s.view| && t.disk[bn] == s.view[bn]
  {
    states', actions' := states, actions;
    while Left(states'[|actions'|].users) > 0
      invariant Run(states', actions') && actions <= actions' && states <= states'
      invariant SameNames(states[|actions|], states'[|actions'|])
      decreases Left(states'[|actions'|].users)
    {
      states', actions' := TowardsEnd(states', actions');
    }
    AllEnded(states', actions');
  }

  lemma AllEnded(states: seq<State>, actions: seq<Action>)
    requires Run(states, actions) && Left(states[|actions|].users) == 0
    ensures var t := states[|actions|];
      && (forall u :: 0 <= u < |t.users| ==> t.users[u].Idle?)
      && |t.pins| == |t.slots| && (forall i :: 0 <= i < |t.slots| ==> t.slots[i].refcnt == t.pins[i])
      && forall bn :: 0 <= bn < |t.disk| && Unpinned(t, bn) ==> bn < |t.view| && t.disk[bn] == t.view[bn]
  {
    var t := states[|actions|];
    RunOk(states, actions, |actions|);
    LeftNone(t.users);
    forall i: nat | i < |t.slots| ensures t.slots[i].refcnt == t.pins[i] && t.slots[i].holder.None? {
      assert SlotOk(t, i);
      NoUsers(t.users, i);
    }
    forall bn | 0 <= bn < |t.disk| && Unpinned(t, bn) ensures bn < |t.view| && t.disk[bn] == t.view[bn] {
      CleanWhenFree(states, actions, |actions|, bn);
    }
  }

  predicate Unpinned(s: State, bn: nat) {
    forall i :: 0 <= i < |s.slots| && i < |s.pins| && Names(s.slots[i], bn) ==> s.pins[i] == 0
  }

  /** A buffer that bget could use for block `bn`: the one that names it, or one without pins. */
  predicate Usable(s: State, bn: nat, i: nat) {
    i < |s.slots| == |s.pins| && (Names(s.slots[i], bn) || s.pins[i] == 0)
  }

  /** bget's choice when nobody uses the cache: the buffer that names the block, or one without pins. */
  lemma Choose(s: State, u: nat, bn: nat, i: nat) returns (a: Action)
    requires Inv(s) && u < |s.users| && bn < |s.disk| && Usable(s, bn, i)
    requires forall v :: 0 <= v < |s.users| ==> s.users[v].Idle?
    requires forall j :: 0 <= j < |s.slots| ==> s.slots[j].refcnt == s.pins[j]
    requires Names(s.slots[i], bn) || forall j :: 0 <= j < |s.slots| ==> !Names(s.slots[j], bn)
    ensures Enabled(s, a) && Do(s, a).view == s.view && Do(s, a).disk == s.disk
    ensures Do(s, a).users[u] == Waiting(i, bn) && Enabled(Do(s, a), Lock(u))
  {
    assert SlotOk(s, i);
    a := if Names(s.slots[i], bn) then Hit(u, bn, i) else Recycle(u, bn, i);
  }

  lemma Locks(s: State, u: nat)
    requires Inv(s) && Enabled(s, Lock(u))
    ensures var t := Do(s, Lock(u));
      && t.view == s.view && t.users[u] == Holding(s.users[u].slot, s.users[u].bn)
      && (HoldsValid(t, u) || Enabled(t, Load(u)))
  {
    assert UserOk(s, u) && SlotOk(s, s.users[u].slot);
  }

  /** Every bread can succeed: as long as the block is cached or some buffer is not pinned, every run
      can go on so that an idle user holds the block, valid, with the last change made to it. */
  lemma CanRead(states: seq<State>, actions: seq<Action>, u: nat, bn: nat, i: nat)
      returns (states': seq<State>, actions': seq<Action>)
    requires Run(states, actions)
    requires var s := states[|actions|]; u < |s.users| && bn < |s.disk| && Usable(s, bn, i)
    ensures Run(states', actions') && actions <= actions' && states <= states'
    ensures var s, t := states[|actions|], states'[|actions'|];
      && HoldsValid(t, u) && t.users[u].bn == bn < |s.view| && t.slots[t.users[u].slot].data == s.view[bn]
  {
    states', actions' := AllCanEnd(states, actions);
    RunOk(states', actions', |actions'|);
    var s := states'[|actions'|];
    var j := i;
    if k: nat :| k < |s.slots| && Names(s.slots[k], bn) { j := k; }
    var a := Choose(s, u, bn, j);
    Extend(states', actions', a);
    states', actions' := states' + [Do(s, a)], actions' + [a];
    states', actions' := LockAndLoad(states', actions', u);
    BreadIsRight(states', actions', |actions'|, u, u);
  }

  lemma LockAndLoad(states: seq<State>, actions: seq<Action>, u: nat)
      returns (states': seq<State>, actions': seq<Action>)
    requires Run(states, actions) && Enabled(states[|actions|], Lock(u))
    ensures Run(states', actions') && actions <= actions' && states <= states'
    ensures var s, t := states[|actions|], states'[|actions'|];
      HoldsValid(t, u) && t.users[u].bn == s.users[u].bn && t.view == s.view
  {
    RunOk(states, actions, |actions|);
    var s := states[|actions|];
    Locks(s, u);
    Extend(states, actions, Lock(u));
    states', actions' := states + [Do(s, Lock(u))], actions + [Lock(u)];
    var t := states'[|actions'|];
    if !HoldsValid(t, u) {
      Extend(states', actions', Load(u));
      states', actions' := states' + [Do(t, Load(u))], actions' + [Load(u)];
    }
  }
}
