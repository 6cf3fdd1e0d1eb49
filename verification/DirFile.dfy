/** Directories as files: `struct dirent` in bytes, and the reads and writes of one entry that
    dirlookup, dirlink and sys_unlink make.  It joins the entries of LinkTable to the bytes of
    FileContent. */
module DirFile {
  import opened Common
  import opened LinkTable
  import B = FileBlocks
  import FileContent

  const SIZE := 16     // sizeof(struct dirent)
  const DIRSIZ := 14

  /** What an entry on disk can hold: no name contains the zero that pads it. */
  predicate Fits(e: Dirent) {
    e.inum < 0x1_0000 && |e.name| <= DIRSIZ && forall k :: 0 <= k < |e.name| ==> 0 < e.name[k] as int < 256
  }

  predicate AllFit(es: seq<Dirent>) {
    forall s :: 0 <= s < |es| ==> Fits(es[s])
  }

  /** The bytes of an entry: the number, and the name as strncpy pads it. */
  function Encode(e: Dirent): (b: seq<Byte>)
    requires Fits(e)
    ensures |b| == SIZE
  {
    [e.inum % 256, e.inum / 256] + seq(DIRSIZ, k requires 0 <= k < DIRSIZ => Padded(e.name, k))
  }

  function Padded(name: string, k: nat): Byte
    requires forall j :: 0 <= j < |name| ==> 0 < name[j] as int < 256
  {
    if k < |name| then name[k] as int else 0
  }

  /** The name up to the first zero, if there is one. */
  function Name(b: seq<Byte>): string {
    if b == [] || b[0] == 0 then "" else [b[0] as char] + Name(b[1..])
  }

  function Decode(b: seq<Byte>): Dirent
    requires |b| == SIZE
  {
    var low: nat, high: nat := b[0], b[1];
    Dirent(low + 256 * high, Name(b[2..]))
  }

  lemma {:induction false} NameBack(name: string, b: seq<Byte>)
    requires |name| <= |b| && forall j :: 0 <= j < |name| ==> 0 < name[j] as int < 256
    requires forall k :: 0 <= k < |b| ==> b[k] == Padded(name, k)
    ensures Name(b) == name
  {
    if name != [] {
      forall k | 0 <= k < |b[1..]| ensures b[1..][k] == Padded(name[1..], k) { assert b[k + 1] == Padded(name, k + 1); }
      NameBack(name[1..], b[1..]);
    }
  }

  /** An entry that is written is read back. */
  lemma EntryRoundTrip(e: Dirent)
    requires Fits(e)
    ensures Decode(Encode(e)) == e
  {
    var b := Encode(e)[2..];
    forall k | 0 <= k < |b| ensures b[k] == Padded(e.name, k) { assert Encode(e)[k + 2] == Padded(e.name, k); }
    NameBack(e.name, b);
  }

  /** The contents of a directory. */
  function Bytes(es: seq<Dirent>): (b: seq<Byte>)
    requires AllFit(es)
    ensures |b| == SIZE * |es|
  {
    if es == [] then [] else Bytes(es[..|es| - 1]) + Encode(es[|es| - 1])
  }

  lemma {:induction false} BytesAt(es: seq<Dirent>, s: nat)
    requires AllFit(es) && s < |es|
    ensures Bytes(es)[SIZE * s..SIZE * s + SIZE] == Encode(es[s])
  {
    var n := |es| - 1;
    if s < n {
      BytesAt(es[..n], s);
      assert Bytes(es)[SIZE * s..SIZE * s + SIZE] == Bytes(es[..n])[SIZE * s..SIZE * s + SIZE];
    }
  }

  /** `es` with entry `s` written, at the end or over another one. */
  function Put(es: seq<Dirent>, s: nat, e: Dirent): seq<Dirent>
    requires s <= |es|
  {
    if s < |es| then es[s := e] else es + [e]
  }

  lemma SplicedFront(a: seq<Byte>, rest: seq<Byte>, at: nat, x: seq<Byte>)
    requires at + |x| <= |a|
    ensures B.Spliced(a + rest, at, x) == B.Spliced(a, at, x) + rest
  {
    assert (a + rest)[..at] == a[..at] && (a + rest)[at + |x|..] == a[at + |x|..] + rest;
  }

  lemma SplicedLast(a: seq<Byte>, rest: seq<Byte>, x: seq<Byte>)
    requires |rest| <= |x|
    ensures B.Spliced(a + rest, |a|, x) == a + x
  {
  }

  lemma BytesAppend(es: seq<Dirent>, e: Dirent)
    requires AllFit(es) && Fits(e)
    ensures AllFit(es + [e]) && Bytes(es + [e]) == Bytes(es) + Encode(e)
  {
    assert (es + [e])[..|es|] == es;
  }

  lemma PutLast(es: seq<Dirent>, was: Dirent, e: Dirent)
    requires AllFit(es) && Fits(was) && Fits(e)
    ensures AllFit(es + [was]) && AllFit(es + [e])
    ensures B.Spliced(Bytes(es), SIZE * |es|, Encode(e)) == Bytes(es + [e])
    ensures B.Spliced(Bytes(es + [was]), SIZE * |es|, Encode(e)) == Bytes(es + [e])
  {
    BytesAppend(es, was);
    BytesAppend(es, e);
    assert Bytes(es) + [] == Bytes(es);
    SplicedLast(Bytes(es), [], Encode(e));
    SplicedLast(Bytes(es), Encode(was), Encode(e));
  }

  lemma {:induction false} BytesPut(es: seq<Dirent>, s: nat, e: Dirent)
    requires AllFit(es) && Fits(e) && s <= |es|
    ensures AllFit(Put(es, s, e)) && B.Spliced(Bytes(es), SIZE * s, Encode(e)) == Bytes(Put(es, s, e))
    decreases |es|
  {
    if s == |es| {
      PutLast(es, e, e);
    } else {
      var front, last := es[..|es| - 1], es[|es| - 1];
      assert es == front + [last];
      if s == |front| {
        PutLast(front, last, e);
        assert Put(es, s, e) == front + [e];
      } else {
        BytesPut(front, s, e);
        BytesAppend(front, last);
        BytesAppend(Put(front, s, e), last);
        SplicedFront(Bytes(front), Encode(last), SIZE * s, Encode(e));
        assert Put(es, s, e) == Put(front, s, e) + [last];
      }
    }
  }

  /** File `d` is a directory with these entries. */
  ghost predicate IsDir(fs: FileContent.Fs, d: nat, es: seq<Dirent>)
    reads fs
  {
    fs.Valid() && d < |fs.inode| && AllFit(es) && B.Content(fs.V(), d) == Bytes(es)
  }

  /** readi of one entry: never short, so the panics "dirlookup read", "dirlink read" and
      "isdirempty: readi" are unreachable. */
  method ReadEntry(fs: FileContent.Fs, d: nat, s: nat, ghost es: seq<Dirent>) returns (e: Dirent)
    requires IsDir(fs, d, es) && s < |es|
    modifies fs`used, fs`disk, fs`inode, fs`owner, fs`logged
    ensures fs.V() == old(fs.V()) && fs.logged == old(fs.logged) && IsDir(fs, d, es)
    ensures e == es[s]
  {
    assert B.InodeOk(fs.V(), d);
    var b := fs.Readi(d, SIZE * s, SIZE);
    BytesAt(es, s);
    assert b == Bytes(es)[SIZE * s..SIZE * s + SIZE];
    EntryRoundTrip(es[s]);
    e := Decode(b);
  }

  /** writei of one entry.  Over an entry it always succeeds, so the panic "unlink: writei" is
      unreachable; at the end it fails only when no block is free or the directory is as big as a
      file can be, and then it changes no contents. */
  method WriteEntry(fs: FileContent.Fs, d: nat, s: nat, e: Dirent, ghost es: seq<Dirent>) returns (ok: bool)
    requires IsDir(fs, d, es) && Fits(e) && s <= |es|
    modifies fs
    ensures IsDir(fs, d, if ok then Put(es, s, e) else es) && |fs.inode| == |old(fs.inode)|
    ensures !ok ==> s == |es| && (fs.AllUsed() || SIZE * s + SIZE > B.MAXFILE * B.BSIZE)
    ensures forall j :: 0 <= j < |fs.inode| && j != d ==> B.Content(fs.V(), j) == B.Content(old(fs.V()), j)
  {
    assert B.InodeOk(fs.V(), d);
    ghost var v := fs.V();
    BytesPut(es, s, e);
    var r := fs.Writei(d, Encode(e), SIZE * s);
    ok := r == SIZE;
    if r == SIZE {
      assert Encode(e)[..r] == Encode(e);
    } else if r >= 0 {
      assert r == 0 by { Unaligned(s, r); }
      assert Encode(e)[..r] == [] && B.Spliced(Bytes(es), SIZE * s, []) == Bytes(es);
    }
  }

  /** No entry crosses the end of a block. */
  lemma Unaligned(s: nat, r: nat)
    ensures 0 < r < SIZE ==> (SIZE * s + r) % B.BSIZE != 0
  {
  }
}
