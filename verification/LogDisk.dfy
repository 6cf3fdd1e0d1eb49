/** The on-disk side of the write-ahead log: what a disk image with a log area
    means, as pure functions.  The methods of `Log` are proved against these
    functions, and the interleaved model in `LogProtocol` steps through them. */
module LogDisk {
  import opened Common

  const WORDS := 256      // BSIZE / sizeof(int)
  const MAXOPBLOCKS := 10
  const LOGSIZE := 30     // MAXOPBLOCKS * 3

  /** One disk block, seen as the 32-bit words that `struct logheader` overlays. */
  type Block = b: seq<int> | |b| == WORDS witness seq(WORDS, i => 0)
  type DiskImage = seq<Block>

  /** `log.start` and `log.size`: the header sits at `start`, log blocks follow. */
  datatype Layout = Layout(start: nat, size: nat) {
    predicate Fits(d: DiskImage) {
      1 <= size && start + size <= |d|
    }

    predicate Home(d: DiskImage, bn: int) {
      0 <= bn < |d| && !(start <= bn < start + size)
    }

    /** How many blocks `log_write` lets one transaction hold. */
    function Capacity(): nat
      requires 1 <= size
    {
      if LOGSIZE < size - 1 then LOGSIZE else size - 1
    }
  }

  /** A list of home blocks that the log has room for. */
  ghost predicate GoodList(l: Layout, d: DiskImage, bl: seq<int>) {
    && l.Fits(d)
    && |bl| <= l.Capacity()
    && forall i :: 0 <= i < |bl| ==> l.Home(d, bl[i])
  }

  function EncodeHead(was: Block, bl: seq<int>): Block
    requires |bl| <= LOGSIZE
  {
    [|bl|] + bl + was[1 + |bl|..]
  }

  function DecodeHead(b: Block): seq<int>
    requires 0 <= b[0] <= LOGSIZE
  {
    b[1..1 + b[0]]
  }

  lemma HeadRoundTrip(was: Block, bl: seq<int>)
    requires |bl| <= LOGSIZE
    ensures EncodeHead(was, bl)[0] == |bl|
    ensures DecodeHead(EncodeHead(was, bl)) == bl
  {
  }

  /** The header on this disk is one that `read_head` may trust. */
  ghost predicate GoodHead(l: Layout, d: DiskImage) {
    && l.Fits(d)
    && 0 <= d[l.start][0] <= l.Capacity()
    && GoodList(l, d, DecodeHead(d[l.start]))
  }

  ghost function Logged(l: Layout, d: DiskImage): seq<int>
    requires GoodHead(l, d)
  {
    DecodeHead(d[l.start])
  }

  /** The disk after `install_trans` has copied the first `k` log blocks home. */
  ghost function Install(l: Layout, d: DiskImage, bl: seq<int>, k: nat): (e: DiskImage)
    requires GoodList(l, d, bl) && k <= |bl|
    ensures |e| == |d|
    ensures forall x :: l.start <= x < l.start + l.size ==> e[x] == d[x]
  {
    if k == 0 then d
    else
      var e := Install(l, d, bl, k - 1);
      e[bl[k - 1] := e[l.start + k]]
  }

  lemma InstallNext(l: Layout, d: DiskImage, bl: seq<int>, k: nat)
    requires GoodList(l, d, bl) && k < |bl|
    ensures Install(l, d, bl, k + 1) == Install(l, d, bl, k)[bl[k] := d[l.start + k + 1]]
    ensures InstallTrace(l, d, bl, k + 1) == InstallTrace(l, d, bl, k) + [Install(l, d, bl, k + 1)]
  {
    assert Install(l, d, bl, k)[l.start + (k + 1)] == d[l.start + k + 1];
  }

  /** The contents that `view` gives to the listed blocks. */
  ghost function Pick(view: DiskImage, bl: seq<int>): seq<Block>
    requires forall i :: 0 <= i < |bl| ==> 0 <= bl[i] < |view|
  {
    seq(|bl|, i requires 0 <= i < |bl| => view[bl[i]])
  }

  ghost function Cleared(l: Layout, d: DiskImage): DiskImage
    requires l.Fits(d)
  {
    d[l.start := EncodeHead(d[l.start], [])]
  }

  /** The disk that one uninterrupted `recover_from_log` leaves. */
  ghost function Recovered(l: Layout, d: DiskImage): DiskImage
    requires GoodHead(l, d)
  {
    Cleared(l, Install(l, d, Logged(l, d), |Logged(l, d)|))
  }

  /** The disk after `k` block writes of `recover_from_log`. */
  ghost function RecoveryState(l: Layout, d: DiskImage, k: nat): DiskImage
    requires GoodHead(l, d) && k <= |Logged(l, d)| + 1
  {
    if k <= |Logged(l, d)| then Install(l, d, Logged(l, d), k) else Recovered(l, d)
  }

  /** The disk after `write_log` has written the first `k` values. */
  ghost function LogWritten(l: Layout, d: DiskImage, vals: seq<Block>, k: nat): (e: DiskImage)
    requires l.Fits(d) && |vals| <= l.Capacity() && k <= |vals|
    ensures |e| == |d|
    ensures forall x :: 0 <= x < |d| && !(l.start < x <= l.start + k) ==> e[x] == d[x]
    ensures forall i :: 0 <= i < k ==> e[l.start + 1 + i] == vals[i]
  {
    if k == 0 then d
    else LogWritten(l, d, vals, k - 1)[l.start + k := vals[k - 1]]
  }

  ghost function HeadWritten(l: Layout, d: DiskImage, bl: seq<int>, vals: seq<Block>): DiskImage
    requires GoodList(l, d, bl) && |vals| == |bl|
  {
    var e := LogWritten(l, d, vals, |vals|);
    e[l.start := EncodeHead(e[l.start], bl)]
  }

  lemma HeadWrittenAt(l: Layout, d: DiskImage, bl: seq<int>, vals: seq<Block>, i: nat)
    requires GoodList(l, d, bl) && |vals| == |bl| && i < |bl|
    ensures HeadWritten(l, d, bl, vals)[l.start + i + 1] == vals[i]
  {
    assert LogWritten(l, d, vals, |vals|)[l.start + 1 + i] == vals[i];
  }

  /** The disk after `k` block writes of `commit`: `n` log blocks, the header,
      `n` home blocks, and the cleared header. */
  ghost function CommitState(l: Layout, d: DiskImage, bl: seq<int>, vals: seq<Block>, k: nat): DiskImage
    requires GoodList(l, d, bl) && |vals| == |bl| && k <= 2 * |bl| + 2
  {
    var n := |bl|;
    if k <= n then LogWritten(l, d, vals, k)
    else if k <= 2 * n + 1 then Install(l, HeadWritten(l, d, bl, vals), bl, k - n - 1)
    else Cleared(l, Install(l, HeadWritten(l, d, bl, vals), bl, n))
  }

  /** The images after each of the first `k` block writes of `write_log`. */
  ghost function LogTrace(l: Layout, d: DiskImage, vals: seq<Block>, k: nat): (t: seq<DiskImage>)
    requires l.Fits(d) && |vals| <= l.Capacity() && k <= |vals|
    ensures |t| == k
    ensures forall i :: 0 <= i < k ==> t[i] == LogWritten(l, d, vals, i + 1)
  {
    if k == 0 then [] else LogTrace(l, d, vals, k - 1) + [LogWritten(l, d, vals, k)]
  }

  /** The images after each of the first `k` block writes of `install_trans`. */
  ghost function InstallTrace(l: Layout, d: DiskImage, bl: seq<int>, k: nat): (t: seq<DiskImage>)
    requires GoodList(l, d, bl) && k <= |bl|
    ensures |t| == k
    ensures forall i :: 0 <= i < k ==> t[i] == Install(l, d, bl, i + 1)
  {
    if k == 0 then [] else InstallTrace(l, d, bl, k - 1) + [Install(l, d, bl, k)]
  }

  /** The images after each block write of one `commit`. */
  ghost function CommitTrace(l: Layout, d: DiskImage, bl: seq<int>, vals: seq<Block>): seq<DiskImage>
    requires GoodList(l, d, bl) && |vals| == |bl|
  {
    var h := HeadWritten(l, d, bl, vals);
    LogTrace(l, d, vals, |bl|) + [h] + InstallTrace(l, h, bl, |bl|) + [Cleared(l, Install(l, h, bl, |bl|))]
  }

  /** The images after each block write of one `recover_from_log`. */
  ghost function RecoveryTrace(l: Layout, d: DiskImage): seq<DiskImage>
    requires GoodHead(l, d)
  {
    InstallTrace(l, d, Logged(l, d), |Logged(l, d)|) + [Recovered(l, d)]
  }

  lemma CommitTraceSplit(l: Layout, d: DiskImage, bl: seq<int>, vals: seq<Block>, t: seq<DiskImage>)
    requires GoodList(l, d, bl) && |vals| == |bl|
    ensures var h := HeadWritten(l, d, bl, vals);
            var e := CommitState(l, d, bl, vals, 2 * |bl| + 2);
            && e == Cleared(l, Install(l, h, bl, |bl|))
            && t + CommitTrace(l, d, bl, vals) ==
               t + LogTrace(l, d, vals, |bl|) + [h] + InstallTrace(l, h, bl, |bl|) + [e]
  {
  }

  /** A power failure during `commit` finds the disk in one of the `CommitState`s. */
  lemma CommitTraceStates(l: Layout, d: DiskImage, bl: seq<int>, vals: seq<Block>, k: nat)
    requires GoodList(l, d, bl) && |vals| == |bl|
    ensures |CommitTrace(l, d, bl, vals)| == 2 * |bl| + 2
    ensures 0 < k <= 2 * |bl| + 2 ==> CommitTrace(l, d, bl, vals)[k - 1] == CommitState(l, d, bl, vals, k)
  {
  }

  /** A power failure during recovery finds the disk in one of the `RecoveryState`s. */
  lemma RecoveryTraceStates(l: Layout, d: DiskImage, k: nat)
    requires GoodHead(l, d)
    ensures |RecoveryTrace(l, d)| == |Logged(l, d)| + 1
    ensures 0 < k <= |Logged(l, d)| + 1 ==> RecoveryTrace(l, d)[k - 1] == RecoveryState(l, d, k)
  {
  }

  /** Reference meaning of a transaction: every listed block takes its new value. */
  ghost predicate Updated(l: Layout, d: DiskImage, bl: seq<int>, vals: seq<Block>, e: DiskImage)
    requires |vals| == |bl|
  {
    && |e| == |d|
    && (forall i :: 0 <= i < |bl| && 0 <= bl[i] < |e| ==> e[bl[i]] == vals[i])
    && (forall x :: l.Home(d, x) && x !in bl ==> e[x] == d[x])
  }

  ghost predicate SameHome(l: Layout, d: DiskImage, e: DiskImage) {
    && |e| == |d|
    && forall x :: l.Home(d, x) ==> e[x] == d[x]
  }

  /** Index of the last occurrence of `x` among the first `k` entries, or -1. */
  ghost function LastIndex(bl: seq<int>, k: nat, x: int): (i: int)
    requires k <= |bl|
    ensures -1 <= i < k
    ensures i >= 0 ==> bl[i] == x
    ensures forall j :: i < j < k ==> bl[j] != x
  {
    if k == 0 then -1
    else if bl[k - 1] == x then k - 1
    else LastIndex(bl, k - 1, x)
  }

  /** What one block holds after a partial installation. */
  lemma {:induction false} InstallAt(l: Layout, d: DiskImage, bl: seq<int>, k: nat, x: nat)
    requires GoodList(l, d, bl) && k <= |bl| && x < |d|
    ensures Install(l, d, bl, k)[x] ==
            if LastIndex(bl, k, x) >= 0 then d[l.start + 1 + LastIndex(bl, k, x)] else d[x]
  {
    if k > 0 {
      InstallAt(l, d, bl, k - 1, x);
    }
  }

  /** Re-installing over a partly installed disk gives what one installation gives. */
  lemma InstallAgain(l: Layout, d: DiskImage, bl: seq<int>, k: nat)
    requires GoodList(l, d, bl) && k <= |bl|
    ensures Install(l, Install(l, d, bl, k), bl, |bl|) == Install(l, d, bl, |bl|)
  {
    var e := Install(l, d, bl, k);
    forall x: nat | x < |d|
      ensures Install(l, e, bl, |bl|)[x] == Install(l, d, bl, |bl|)[x]
    {
      InstallAt(l, e, bl, |bl|, x);
      InstallAt(l, d, bl, |bl|, x);
      InstallAt(l, d, bl, k, x);
    }
  }

  lemma InstallUpdates(l: Layout, d: DiskImage, bl: seq<int>, vals: seq<Block>)
    requires GoodList(l, d, bl) && Distinct(bl) && |vals| == |bl|
    requires forall i :: 0 <= i < |bl| ==> d[l.start + 1 + i] == vals[i]
    ensures Updated(l, d, bl, vals, Install(l, d, bl, |bl|))
  {
    var e := Install(l, d, bl, |bl|);
    forall i | 0 <= i < |bl| ensures e[bl[i]] == vals[i] {
      InstallAt(l, d, bl, |bl|, bl[i]);
    }
    forall x | l.Home(d, x) && x !in bl ensures e[x] == d[x] {
      InstallAt(l, d, bl, |bl|, x);
    }
  }

  /** A disk with an empty header is its own recovery, up to the header's stale words. */
  lemma RecoverNothing(l: Layout, d: DiskImage)
    requires l.Fits(d) && d[l.start][0] == 0
    ensures GoodHead(l, d) && Logged(l, d) == [] && SameHome(l, d, Recovered(l, d))
  {
  }

  /** A crash inside recovery loses nothing: recovering again ends in the same disk. */
  lemma RecoveryIdempotent(l: Layout, d: DiskImage, k: nat)
    requires GoodHead(l, d) && k <= |Logged(l, d)| + 1
    ensures GoodHead(l, RecoveryState(l, d, k))
    ensures Recovered(l, RecoveryState(l, d, k)) == Recovered(l, d)
  {
    var bl := Logged(l, d);
    var e := RecoveryState(l, d, k);
    if k <= |bl| {
      assert e[l.start] == d[l.start];
      InstallAgain(l, d, bl, k);
    } else {
      HeadRoundTrip(Install(l, d, bl, |bl|)[l.start], []);
      RecoverNothing(l, e);
      assert Recovered(l, e) == e;
    }
  }

  /** `ds[0]` crashes `ks[0]` writes into its recovery, leaving `ds[1]`, and so on. */
  ghost predicate CrashChain(l: Layout, ds: seq<DiskImage>, ks: seq<nat>) {
    && |ds| == |ks| + 1
    && forall i :: 0 <= i < |ks| ==>
        && GoodHead(l, ds[i])
        && ks[i] <= |Logged(l, ds[i])| + 1
        && ds[i + 1] == RecoveryState(l, ds[i], ks[i])
  }

  /** Any number of crashes inside recovery changes nothing about the final disk. */
  lemma {:induction false} CrashChainRecovers(l: Layout, ds: seq<DiskImage>, ks: seq<nat>)
    requires CrashChain(l, ds, ks) && GoodHead(l, ds[0])
    ensures GoodHead(l, ds[|ks|])
    ensures Recovered(l, ds[|ks|]) == Recovered(l, ds[0])
  {
    if |ks| > 0 {
      var n := |ks| - 1;
      CrashChainRecovers(l, ds[..n + 1], ks[..n]);
      RecoveryIdempotent(l, ds[n], ks[n]);
    }
  }

  /** Once the header is on disk, recovery applies the whole transaction. */
  lemma HeadCommits(l: Layout, d: DiskImage, bl: seq<int>, vals: seq<Block>)
    requires GoodList(l, d, bl) && Distinct(bl) && |vals| == |bl|
    ensures var h := HeadWritten(l, d, bl, vals);
            GoodHead(l, h) && Logged(l, h) == bl && Updated(l, d, bl, vals, Recovered(l, h))
  {
    var w := LogWritten(l, d, vals, |vals|);
    var h := HeadWritten(l, d, bl, vals);
    HeadRoundTrip(w[l.start], bl);
    assert h[l.start] == EncodeHead(w[l.start], bl);
    forall i | 0 <= i < |bl| ensures h[l.start + 1 + i] == vals[i] {
      HeadWrittenAt(l, d, bl, vals, i);
    }
    InstallUpdates(l, h, bl, vals);
    var e := Install(l, h, bl, |bl|);
    assert Recovered(l, h) == Cleared(l, e);
    forall x | l.Home(d, x) && x !in bl ensures Recovered(l, h)[x] == d[x] {
      assert e[x] == h[x];
    }
  }

  /** From the header write on, committing and recovering write the same blocks. */
  lemma CommitIsRecovery(l: Layout, d: DiskImage, bl: seq<int>, vals: seq<Block>, k: nat)
    requires GoodList(l, d, bl) && |vals| == |bl| && |bl| < k <= 2 * |bl| + 2
    requires GoodHead(l, HeadWritten(l, d, bl, vals)) && Logged(l, HeadWritten(l, d, bl, vals)) == bl
    ensures CommitState(l, d, bl, vals, k) == RecoveryState(l, HeadWritten(l, d, bl, vals), k - |bl| - 1)
  {
  }

  lemma AfterHead(l: Layout, d: DiskImage, bl: seq<int>, vals: seq<Block>, k: nat)
    requires GoodList(l, d, bl) && Distinct(bl) && |vals| == |bl| && |bl| < k <= 2 * |bl| + 2
    ensures var e := CommitState(l, d, bl, vals, k);
            GoodHead(l, e) && Updated(l, d, bl, vals, Recovered(l, e))
  {
    var h := HeadWritten(l, d, bl, vals);
    HeadCommits(l, d, bl, vals);
    RecoveryIdempotent(l, h, k - |bl| - 1);
    CommitIsRecovery(l, d, bl, vals, k);
    assert Recovered(l, CommitState(l, d, bl, vals, k)) == Recovered(l, h);
  }

  /** Before the header write, recovery finds nothing to do. */
  lemma NotYetCommitted(l: Layout, d: DiskImage, vals: seq<Block>, k: nat)
    requires l.Fits(d) && |vals| <= l.Capacity() && k <= |vals| && d[l.start][0] == 0
    ensures var e := LogWritten(l, d, vals, k);
            GoodHead(l, e) && Logged(l, e) == [] && SameHome(l, d, Recovered(l, e))
  {
    var e := LogWritten(l, d, vals, k);
    RecoverNothing(l, e);
    forall x | l.Home(d, x) ensures Recovered(l, e)[x] == d[x] {
      assert e[x] == d[x];
    }
  }

  /** Stopping `commit` after any number of block writes leaves a disk that recovers
      to the old home blocks up to the header write, and to the new ones from it on. */
  lemma CommitAtomic(l: Layout, d: DiskImage, bl: seq<int>, vals: seq<Block>, k: nat)
    requires GoodList(l, d, bl) && Distinct(bl) && |vals| == |bl|
    requires d[l.start][0] == 0 && k <= 2 * |bl| + 2
    ensures GoodHead(l, CommitState(l, d, bl, vals, k))
    ensures k <= |bl| ==> SameHome(l, d, Recovered(l, CommitState(l, d, bl, vals, k)))
    ensures k > |bl| ==> Updated(l, d, bl, vals, Recovered(l, CommitState(l, d, bl, vals, k)))
  {
    if k <= |bl| {
      NotYetCommitted(l, d, vals, k);
      assert CommitState(l, d, bl, vals, k) == LogWritten(l, d, vals, k);
    } else {
      AfterHead(l, d, bl, vals, k);
    }
  }

  /** Crash atomicity: a crash anywhere in `commit`, then any number of crashes inside
      recovery, then one recovery that completes. */
  lemma CrashAtomicity(l: Layout, d: DiskImage, bl: seq<int>, vals: seq<Block>, k: nat,
                       ds: seq<DiskImage>, ks: seq<nat>)
    requires GoodList(l, d, bl) && Distinct(bl) && |vals| == |bl|
    requires d[l.start][0] == 0 && k <= 2 * |bl| + 2
    requires CrashChain(l, ds, ks) && ds[0] == CommitState(l, d, bl, vals, k)
    ensures GoodHead(l, ds[|ks|])
    ensures k <= |bl| ==> SameHome(l, d, Recovered(l, ds[|ks|]))
    ensures k > |bl| ==> Updated(l, d, bl, vals, Recovered(l, ds[|ks|]))
    ensures Recovered(l, ds[|ks|])[l.start][0] == 0
  {
    CommitAtomic(l, d, bl, vals, k);
    CrashChainRecovers(l, ds, ks);
  }

  /** The transaction turns the home blocks of `d` into those of `view`. */
  ghost predicate Turns(l: Layout, d: DiskImage, bl: seq<int>, view: DiskImage) {
    && GoodList(l, d, bl) && Distinct(bl) && d[l.start][0] == 0
    && |view| == |d|
    && forall x :: l.Home(d, x) && x !in bl ==> d[x] == view[x]
  }

  /** Power failure after the `k`-th block write of a commit, for every `k`: recovery gives
      all the old home blocks while only log blocks were written, all the new ones later. */
  lemma TransactionAtomic(l: Layout, d: DiskImage, bl: seq<int>, view: DiskImage, k: nat)
    requires Turns(l, d, bl, view) && 0 < k <= 2 * |bl| + 2
    ensures var t := CommitTrace(l, d, bl, Pick(view, bl));
            && |t| == 2 * |bl| + 2 && GoodHead(l, t[k - 1])
            && SameHome(l, if k <= |bl| then d else view, Recovered(l, t[k - 1]))
  {
    var vals := Pick(view, bl);
    CommitTraceStates(l, d, bl, vals, k);
    CommitAtomic(l, d, bl, vals, k);
    if k > |bl| {
      UpdatedIsView(l, d, bl, view, Recovered(l, CommitState(l, d, bl, vals, k)));
    }
  }

  lemma UpdatedIsView(l: Layout, d: DiskImage, bl: seq<int>, view: DiskImage, e: DiskImage)
    requires Turns(l, d, bl, view) && Updated(l, d, bl, Pick(view, bl), e)
    ensures SameHome(l, view, e)
  {
    forall x | l.Home(view, x) ensures e[x] == view[x] {
      if x in bl {
        var i :| 0 <= i < |bl| && bl[i] == x;
        assert e[bl[i]] == Pick(view, bl)[i];
      }
    }
  }

  /** Power failure after any of these writes leaves a disk that recovers to the home blocks
      of `d` for the first `n` of them and to those of `view` for the others. */
  ghost predicate CrashSafe(l: Layout, t: seq<DiskImage>, n: nat, d: DiskImage, view: DiskImage) {
    forall k :: 0 <= k < |t| ==>
      GoodHead(l, t[k]) && SameHome(l, if k < n then d else view, Recovered(l, t[k]))
  }

  lemma CommitCrashSafe(l: Layout, d: DiskImage, bl: seq<int>, view: DiskImage)
    requires Turns(l, d, bl, view)
    ensures CrashSafe(l, CommitTrace(l, d, bl, Pick(view, bl)), |bl|, d, view)
  {
    var t := CommitTrace(l, d, bl, Pick(view, bl));
    CommitTraceStates(l, d, bl, Pick(view, bl), 0);
    forall k | 0 <= k < |t|
      ensures GoodHead(l, t[k]) && SameHome(l, if k < |bl| then d else view, Recovered(l, t[k]))
    {
      TransactionAtomic(l, d, bl, view, k + 1);
    }
  }

  /** Every image in the device trace `t` recovers to what `d` recovers to. */
  ghost predicate RecoverySafe(l: Layout, t: seq<DiskImage>, d: DiskImage)
    requires GoodHead(l, d)
  {
    forall k :: 0 <= k < |t| ==> GoodHead(l, t[k]) && Recovered(l, t[k]) == Recovered(l, d)
  }

  lemma RecoveryCrashSafe(l: Layout, d: DiskImage)
    requires GoodHead(l, d)
    ensures RecoverySafe(l, RecoveryTrace(l, d), d)
  {
    var t := RecoveryTrace(l, d);
    forall k | 0 <= k < |t| ensures GoodHead(l, t[k]) && Recovered(l, t[k]) == Recovered(l, d) {
      RecoveryTraceStates(l, d, 0);
      RecoveryTraceStates(l, d, k + 1);
      RecoveryIdempotent(l, d, k + 1);
    }
  }

  /** When every write of the commit has reached the disk, the home blocks are the view. */
  lemma CommitFinishes(l: Layout, d: DiskImage, bl: seq<int>, view: DiskImage)
    requires Turns(l, d, bl, view)
    ensures var e := CommitState(l, d, bl, Pick(view, bl), 2 * |bl| + 2);
            e[l.start][0] == 0 && SameHome(l, view, e)
  {
    var vals := Pick(view, bl);
    var h := HeadWritten(l, d, bl, vals);
    HeadCommits(l, d, bl, vals);
    CommitIsRecovery(l, d, bl, vals, 2 * |bl| + 2);
    assert CommitState(l, d, bl, vals, 2 * |bl| + 2) == Recovered(l, h);
    UpdatedIsView(l, d, bl, view, Recovered(l, h));
  }
}
