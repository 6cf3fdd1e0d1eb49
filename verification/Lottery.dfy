/** The lottery of proc.c's LBS scheduler: the draw, and the tie-break by arrival time that
    follows it. */
module Lottery {
  import opened Common

  const UINT := 0x1_0000_0000
  const INT_MAX := 0x7fff_ffff

  datatype Proc = Proc(runnable: bool, tickets: nat, arrival: nat)

  // ----- Tickets -----

  /** The tickets of the first `n` candidates. */
  function Sum(c: seq<Proc>, n: nat): nat
    requires n <= |c|
  {
    if n == 0 then 0 else Sum(c, n - 1) + c[n - 1].tickets
  }

  lemma {:induction false} SumGrows(c: seq<Proc>, m: nat, n: nat)
    requires m <= n <= |c|
    ensures Sum(c, m) <= Sum(c, n)
    decreases n
  {
    if m < n { SumGrows(c, m, n - 1); }
  }

  /** Candidate `i` holds ticket `w`. */
  predicate Holds(c: seq<Proc>, w: nat, i: nat) {
    i < |c| && Sum(c, i) < w <= Sum(c, i + 1)
  }

  lemma OneHolder(c: seq<Proc>, w: nat, i: nat, j: nat)
    requires Holds(c, w, i) && Holds(c, w, j)
    ensures i == j
  {
    if i < j { SumGrows(c, i + 1, j); }
    if j < i { SumGrows(c, j + 1, i); }
  }

  // ----- The tie-break -----

  predicate Rivals(c: seq<Proc>, i: nat, j: nat) {
    i < |c| && j < |c| && c[i].tickets == c[j].tickets
  }

  /** The tie-break turns candidate `k` into `e`: `k` stays if nobody with as many tickets
      arrived before it; otherwise the first of those that arrived earliest takes over. */
  predicate Elected(c: seq<Proc>, k: nat, e: nat) {
    && Rivals(c, k, e)
    && (forall i :: 0 <= i < |c| && Rivals(c, i, k) ==> c[e].arrival <= c[i].arrival)
    && (c[e].arrival == c[k].arrival ==> e == k)
    && (c[e].arrival < c[k].arrival ==>
          forall i :: 0 <= i < e && Rivals(c, i, k) ==> c[e].arrival < c[i].arrival)
  }

  /** The tie-break has one outcome. */
  lemma OneElected(c: seq<Proc>, k: nat, e: nat, f: nat)
    requires Elected(c, k, e) && Elected(c, k, f)
    ensures e == f
  {
    assert Rivals(c, e, k) && Rivals(c, f, k);
  }

  // ----- The scheduler's three loops -----

  /** randomrange(lo, hi) for the value `x` of random(). */
  function RandomRange(lo: nat, hi: nat, x: nat): (r: nat)
    requires 0 < lo <= hi <= INT_MAX
    ensures lo <= r <= hi
  {
    x % ((hi - lo + 1) % UINT) + lo
  }

  predicate Candidates(procs: seq<Proc>, n: nat, at: seq<nat>) {
    && (forall j, k :: 0 <= j < k < |at| ==> at[j] < at[k])
    && (forall j :: 0 <= j < |at| ==> at[j] < n)
    && forall i: nat :: i < n ==> Listed(procs, at, i)
  }

  predicate Listed(procs: seq<Proc>, at: seq<nat>, i: nat) {
    i < |procs| ==> (procs[i].runnable <==> i in at)
  }

  function Pick(procs: seq<Proc>, at: seq<nat>): (c: seq<Proc>)
    requires forall j :: 0 <= j < |at| ==> at[j] < |procs|
    ensures |c| == |at| && forall j :: 0 <= j < |c| ==> c[j] == procs[at[j]]
  {
    seq(|at|, j requires 0 <= j < |at| => procs[at[j]])
  }

  lemma {:induction false} SumPrefix(c: seq<Proc>, d: seq<Proc>, n: nat)
    requires n <= |c| <= |d| && forall j :: 0 <= j < |c| ==> c[j] == d[j]
    ensures Sum(c, n) == Sum(d, n)
  {
    if n > 0 { SumPrefix(c, d, n - 1); }
  }

  lemma Another(procs: seq<Proc>, p: nat, at: seq<nat>)
    requires p < |procs| && Candidates(procs, p, at) && procs[p].runnable
    ensures Candidates(procs, p + 1, at + [p])
  {
    forall i: nat | i < p + 1 ensures Listed(procs, at + [p], i) { assert i < p ==> Listed(procs, at, i); }
  }

  lemma AnotherSum(procs: seq<Proc>, p: nat, at: seq<nat>, more: seq<nat>)
    requires p < |procs| && more == at + [p] && forall j :: 0 <= j < |at| ==> at[j] < p
    ensures Sum(Pick(procs, more), |more|) == Sum(Pick(procs, at), |at|) + procs[p].tickets
  {
    var c, d, n := Pick(procs, at), Pick(procs, more), |at|;
    assert d[n] == procs[p] && forall j :: 0 <= j < n ==> c[j] == d[j];
    OneMore(c, d, n);
  }

  lemma OneMore(c: seq<Proc>, d: seq<Proc>, n: nat)
    requires |c| == n && |d| == n + 1 && forall j :: 0 <= j < n ==> c[j] == d[j]
    ensures Sum(d, n + 1) == Sum(c, n) + d[n].tickets
  {
    SumPrefix(c, d, n);
  }

  lemma NotAnother(procs: seq<Proc>, p: nat, at: seq<nat>)
    requires p < |procs| && Candidates(procs, p, at) && !procs[p].runnable
    ensures Candidates(procs, p + 1, at)
  {
    forall i: nat | i < p + 1 ensures Listed(procs, at, i) { assert i < p ==> Listed(procs, at, i); }
  }

  /** The tickets of the runnable ones among the first `n` processes. */
  function Tickets(procs: seq<Proc>, n: nat): nat
    requires n <= |procs|
  {
    if n == 0 then 0 else Tickets(procs, n - 1) + (if procs[n - 1].runnable then procs[n - 1].tickets else 0)
  }

  /** proc.c:613-620: the runnable processes, in table order, and all their tickets. */
  method Gather(procs: seq<Proc>) returns (at: seq<nat>, total: nat)
    ensures Candidates(procs, |procs|, at) && total == Sum(Pick(procs, at), |at|) == Tickets(procs, |procs|)
  {
    at, total := [], 0;
    var p := 0;
    while p < |procs|
      invariant p <= |procs| && Candidates(procs, p, at) && total == Sum(Pick(procs, at), |at|) == Tickets(procs, p)
    {
      if !procs[p].runnable {
        NotAnother(procs, p, at);
      } else {
        Another(procs, p, at);
        AnotherSum(procs, p, at, at + [p]);
        total := total + procs[p].tickets;
        at := at + [p];
      }
      p := p + 1;
    }
  }

  /** proc.c:628-635: the holder of the winning ticket. */
  method Holder(c: seq<Proc>, w: nat) returns (k: nat)
    requires 0 < w <= Sum(c, |c|)
    ensures Holds(c, w, k)
  {
    var count := 0;
    k := 0;
    while true
      invariant k < |c| && count == Sum(c, k) < w
      decreases |c| - k
    {
      count := count + c[k].tickets;
      if count >= w {
        return;
      }
      k := k + 1;
    }
  }

  /** proc.c:638-647. */
  method TieBreak(c: seq<Proc>, k: nat) returns (e: nat)
    requires k < |c|
    ensures Elected(c, k, e)
  {
    e := k;
    var i := 0;
    while i < |c|
      invariant i <= |c| && Rivals(c, k, e) && c[e].arrival <= c[k].arrival
      invariant forall j :: 0 <= j < i && Rivals(c, j, k) ==> c[e].arrival <= c[j].arrival
      invariant c[e].arrival == c[k].arrival ==> e == k
      invariant c[e].arrival < c[k].arrival ==>
                  forall j :: 0 <= j < e && Rivals(c, j, k) ==> c[e].arrival < c[j].arrival
    {
      if c[i].tickets == c[e].tickets && c[i].arrival < c[e].arrival {
        e := i;
      }
      i := i + 1;
    }
    assert forall j :: 0 <= j < |c| && Rivals(c, j, k) ==> c[e].arrival <= c[j].arrival;
  }

  /** Ticket `w` makes `e` the process to run. */
  ghost predicate Wins(c: seq<Proc>, e: nat, w: nat) {
    exists k: nat :: Holds(c, w, k) && Elected(c, k, e)
  }

  /** The value `x` of random() makes `e` the process to run: the tickets take turns. */
  ghost predicate Runs(c: seq<Proc>, e: nat, x: nat) {
    var total := Sum(c, |c|);
    exists w: nat :: 1 <= w <= total && (w - 1) % total == x % total && Wins(c, e, w)
  }

  /** `winner` is what the lottery among the candidates `at` gives for the value `x` of random():
      nobody exactly when nobody holds a ticket, otherwise the one whom the value makes run. */
  ghost predicate Drawn(procs: seq<Proc>, at: seq<nat>, x: nat, winner: Option<nat>)
    requires forall j :: 0 <= j < |at| ==> at[j] < |procs|
  {
    var c := Pick(procs, at);
    && (winner.None? <==> Sum(c, |c|) == 0)
    && (winner.Some? ==> exists e: nat :: e < |at| && winner.value == at[e] && Runs(c, e, x))
  }

  /** Only one process can win with one ticket. */
  lemma OneWinner(c: seq<Proc>, w: nat, e: nat, f: nat)
    requires Wins(c, e, w) && Wins(c, f, w)
    ensures e == f
  {
    var j: nat :| Holds(c, w, j) && Elected(c, j, e);
    var k: nat :| Holds(c, w, k) && Elected(c, k, f);
    OneHolder(c, w, j, k);
    OneElected(c, j, e, f);
  }

  lemma Remainder(x: nat, n: nat)
    requires n > 0
    ensures x % n % n == x % n
  {
  }

  /** proc.c:608-647: the process to run next. */
  method Draw(procs: seq<Proc>, x: nat) returns (winner: Option<nat>)
    requires Tickets(procs, |procs|) <= INT_MAX
    ensures exists at: seq<nat> :: Candidates(procs, |procs|, at) && Drawn(procs, at, x, winner)
    ensures winner.Some? ==> winner.value < |procs| && procs[winner.value].runnable
  {
    var at, total := Gather(procs);
    winner := None;
    if total > 0 {
      var c := Pick(procs, at);
      var w := RandomRange(1, total, x);
      var k := Holder(c, w);
      var e := TieBreak(c, k);
      assert at[e] in at && Listed(procs, at, at[e]);
      assert Wins(c, e, w);
      assert (w - 1) % total == x % total by { Remainder(x, total); }
      assert Runs(c, e, x);
      winner := Some(at[e]);
    }
    assert Drawn(procs, at, x, winner);
  }

  // ----- How often a candidate wins -----

  /** How many of the tickets up to `n` do. */
  ghost function Winning(c: seq<Proc>, e: nat, n: nat): nat {
    if n == 0 then 0 else Winning(c, e, n - 1) + (if Wins(c, e, n) then 1 else 0)
  }

  /** How many of the first `n` candidates give way to `e`, or are `e`. */
  function Yielding(c: seq<Proc>, e: nat, n: nat): nat {
    if n == 0 then 0 else Yielding(c, e, n - 1) + (if Elected(c, n - 1, e) then 1 else 0)
  }

  lemma {:induction false} OneRange(c: seq<Proc>, e: nat, k: nat, w: nat)
    requires k < |c| && Sum(c, k) <= w <= Sum(c, k + 1)
    ensures Winning(c, e, w) == Winning(c, e, Sum(c, k)) + (if Elected(c, k, e) then w - Sum(c, k) else 0)
    decreases w
  {
    if w > Sum(c, k) {
      OneRange(c, e, k, w - 1);
      assert Holds(c, w, k);
      if Wins(c, e, w) {
        var j: nat :| Holds(c, w, j) && Elected(c, j, e);
        OneHolder(c, w, j, k);
      }
    }
  }

  lemma {:induction false} AllRanges(c: seq<Proc>, e: nat, n: nat)
    requires n <= |c| && e < |c|
    ensures Winning(c, e, Sum(c, n)) == c[e].tickets * Yielding(c, e, n)
  {
    if n > 0 {
      AllRanges(c, e, n - 1);
      SumGrows(c, n - 1, n);
      OneRange(c, e, n - 1, Sum(c, n));
      if Elected(c, n - 1, e) { assert c[n - 1].tickets == c[e].tickets; }
      Distribute(c[e].tickets, Yielding(c, e, n - 1));
    }
  }

  lemma Distribute(t: nat, y: nat)
    ensures t * (y + 1) == t * y + t
  {
  }

  /** How many of the first `n` candidates have `t` tickets. */
  function ClassSize(c: seq<Proc>, t: nat, n: nat): nat
    requires n <= |c|
  {
    if n == 0 then 0 else ClassSize(c, t, n - 1) + (if c[n - 1].tickets == t then 1 else 0)
  }

  /** Among those with as many tickets, `e` arrived before all others. */
  predicate Earliest(c: seq<Proc>, e: nat) {
    e < |c| && forall i :: 0 <= i < |c| && i != e && Rivals(c, i, e) ==> c[e].arrival < c[i].arrival
  }

  lemma {:induction false} ClassYields(c: seq<Proc>, e: nat, n: nat)
    requires Earliest(c, e) && n <= |c|
    ensures Yielding(c, e, n) == ClassSize(c, c[e].tickets, n)
  {
    if n > 0 {
      ClassYields(c, e, n - 1);
      var k := n - 1;
      assert Rivals(c, k, e) <==> c[k].tickets == c[e].tickets;
      if Rivals(c, k, e) {
        forall i | 0 <= i < |c| && Rivals(c, i, k)
          ensures c[e].arrival <= c[i].arrival && (i != e ==> c[e].arrival < c[i].arrival)
        {
          assert Rivals(c, i, e);
        }
        assert Elected(c, k, e);
      }
    }
  }

  lemma {:induction false} NobodyYields(c: seq<Proc>, e: nat, i: nat, n: nat)
    requires n <= |c| && Rivals(c, i, e) && c[i].arrival < c[e].arrival
    ensures Yielding(c, e, n) == 0
  {
    if n > 0 {
      NobodyYields(c, e, i, n - 1);
      assert Elected(c, n - 1, e) ==> Rivals(c, i, n - 1);
    }
  }

  /** How many of the tickets up to `n` candidate `k` holds. */
  function Held(c: seq<Proc>, k: nat, n: nat): nat {
    if n == 0 then 0 else Held(c, k, n - 1) + (if Holds(c, n, k) then 1 else 0)
  }

  lemma {:induction false} HeldIs(c: seq<Proc>, k: nat, n: nat)
    requires k < |c|
    ensures Held(c, k, n) ==
              if n <= Sum(c, k) then 0 else if n <= Sum(c, k + 1) then n - Sum(c, k) else c[k].tickets
  {
    if n > 0 { HeldIs(c, k, n - 1); }
  }

  /** The first stage gives every candidate as many of the tickets as it has, and every ticket
      to one candidate. */
  lemma FairFirstStage(c: seq<Proc>, k: nat, w: nat)
    requires k < |c| && 0 < w <= Sum(c, |c|)
    ensures Held(c, k, Sum(c, |c|)) == c[k].tickets
    ensures exists j: nat :: Holds(c, w, j) && forall i: nat :: Holds(c, w, i) ==> i == j
  {
    HeldIs(c, k, Sum(c, |c|));
    SumGrows(c, k + 1, |c|);
    SomeHolder(c, w, |c|);
    var j: nat :| Holds(c, w, j);
    forall i: nat | Holds(c, w, i) ensures i == j { OneHolder(c, w, i, j); }
  }

  lemma {:induction false} SomeHolder(c: seq<Proc>, w: nat, n: nat)
    requires n <= |c| && 0 < w <= Sum(c, n)
    ensures exists j: nat :: Holds(c, w, j)
  {
    if w <= Sum(c, n - 1) { SomeHolder(c, w, n - 1); } else { assert Holds(c, w, n - 1); }
  }

  /** With the tie-break a candidate wins on its own number of tickets times the number of
      candidates that give way to it. */
  lemma TicketsOfAWinner(c: seq<Proc>, e: nat)
    requires e < |c|
    ensures Winning(c, e, Sum(c, |c|)) == c[e].tickets * Yielding(c, e, |c|)
  {
    AllRanges(c, e, |c|);
  }

  /** The one that arrived first among those with equal tickets has all tickets of the class. */
  lemma EarliestTakesAll(c: seq<Proc>, e: nat)
    requires Earliest(c, e)
    ensures Winning(c, e, Sum(c, |c|)) == c[e].tickets * ClassSize(c, c[e].tickets, |c|)
  {
    var y := Yielding(c, e, |c|);
    AllRanges(c, e, |c|);
    ClassYields(c, e, |c|);
    assert y == ClassSize(c, c[e].tickets, |c|);
  }

  /** One that somebody with equal tickets preceded has none. */
  lemma PrecededHasNone(c: seq<Proc>, e: nat, i: nat)
    requires Rivals(c, i, e) && c[i].arrival < c[e].arrival
    ensures Winning(c, e, Sum(c, |c|)) == 0
  {
    AllRanges(c, e, |c|);
    NobodyYields(c, e, i, |c|);
    TimesNone(c[e].tickets, Yielding(c, e, |c|));
  }

  lemma TimesNone(t: nat, y: nat)
    requires y == 0
    ensures t * y == 0
  {
  }

  // ----- Over the values of random() -----

  /** How many of the `n` values from `x` on make `e` run. */
  ghost function Draws(c: seq<Proc>, e: nat, x: nat, n: nat): nat {
    if n == 0 then 0 else Draws(c, e, x, n - 1) + (if Runs(c, e, x + n - 1) then 1 else 0)
  }

  lemma {:induction false} DrawsShift(c: seq<Proc>, e: nat, x: nat, n: nat)
    ensures Draws(c, e, x, n + 1) == (if Runs(c, e, x) then 1 else 0) + Draws(c, e, x + 1, n)
  {
    if n > 0 {
      DrawsShift(c, e, x, n - 1);
      assert x + 1 + (n - 1) == x + (n + 1) - 1;
    }
  }

  lemma Multiples(d: int, n: int)
    requires n > 0
    ensures (d >= 1 ==> d * n >= n) && (d <= -1 ==> d * n <= -n)
  {
    if d >= 1 {
      assert (d - 1) * n >= 0;
    } else if d <= -1 {
      assert (-d - 1) * n >= 0;
    }
  }

  lemma Quotient(q: int, r: nat, a: int, n: nat)
    requires n > 0 && r < n && a == q * n + r
    ensures a % n == r
  {
    Multiples(a / n - q, n);
    assert a == (a / n) * n + a % n;
    assert (a / n - q) * n == (a / n) * n - q * n;
  }

  lemma Turn(a: nat, n: nat)
    requires n > 0
    ensures (a + n) % n == a % n
  {
    assert (a / n + 1) * n == (a / n) * n + n;
    Quotient(a / n + 1, a % n, a + n, n);
  }

  lemma Congruent(a: nat, b: nat, n: nat)
    requires n > 0 && a <= b < a + n && a % n == b % n
    ensures a == b
  {
    Multiples(b / n - a / n, n);
    assert a == (a / n) * n + a % n && b == (b / n) * n + b % n;
    assert (b / n - a / n) * n == (b / n) * n - (a / n) * n;
  }

  lemma RunsAgain(c: seq<Proc>, e: nat, x: nat)
    requires Sum(c, |c|) > 0
    ensures Runs(c, e, x + Sum(c, |c|)) <==> Runs(c, e, x)
  {
    Turn(x, Sum(c, |c|));
  }

  /** The ticket of a value is the remainder and one. */
  lemma RunsIs(c: seq<Proc>, e: nat, x: nat)
    requires x < Sum(c, |c|)
    ensures Runs(c, e, x) <==> Wins(c, e, x + 1)
  {
    var total := Sum(c, |c|);
    Small(x, total);
    if Runs(c, e, x) {
      var w: nat :| 1 <= w <= total && (w - 1) % total == x % total && Wins(c, e, w);
      Small(w - 1, total);
    }
    var w := x + 1;
    if Wins(c, e, w) { assert (w - 1) % total == x % total; }
  }

  lemma Small(x: nat, n: nat)
    requires x < n
    ensures x % n == x
  {
  }

  lemma {:induction false} DrawsFromZero(c: seq<Proc>, e: nat, n: nat)
    requires n <= Sum(c, |c|)
    ensures Draws(c, e, 0, n) == Winning(c, e, n)
  {
    if n > 0 {
      DrawsFromZero(c, e, n - 1);
      RunsIs(c, e, n - 1);
    }
  }

  /** Among as many consecutive values of random() as there are tickets, every ticket is drawn
      exactly once. */
  lemma EveryTicketOnce(total: nat, x: nat, w: nat) returns (y: nat)
    requires 1 <= w <= total
    ensures x <= y < x + total && (w - 1) % total == y % total
    ensures forall z :: x <= z < x + total && (w - 1) % total == z % total ==> z == y
  {
    var q, r := x / total, x % total;
    assert x == q * total + r;
    if w - 1 >= r {
      y := q * total + (w - 1);
      Quotient(q, w - 1, y, total);
    } else {
      y := q * total + total + (w - 1);
      assert (q + 1) * total == q * total + total;
      Quotient(q + 1, w - 1, y, total);
    }
    Small(w - 1, total);
    forall z | x <= z < x + total && (w - 1) % total == z % total ensures z == y {
      if z <= y { Congruent(z, y, total); } else { Congruent(y, z, total); }
    }
  }

  /** A process is drawn for as many of them as there are tickets that make it run: its own
      number of tickets times the number of candidates that give way to it. */
  lemma {:induction false} FairDraw(c: seq<Proc>, e: nat, x: nat)
    requires e < |c| && Sum(c, |c|) > 0
    ensures Draws(c, e, x, Sum(c, |c|)) == Winning(c, e, Sum(c, |c|)) == c[e].tickets * Yielding(c, e, |c|)
  {
    var total := Sum(c, |c|);
    TicketsOfAWinner(c, e);
    if x == 0 {
      DrawsFromZero(c, e, total);
    } else {
      FairDraw(c, e, x - 1);
      DrawsShift(c, e, x - 1, total);
      RunsAgain(c, e, x - 1);
      assert x - 1 + (total + 1) - 1 == x - 1 + total;
    }
  }
}
