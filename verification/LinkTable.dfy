/** Inodes, directory entries and link counts, as sysfile.c and fs.c keep them.  Directories
    hold "." and ".." in their first two entries; an entry with inode number 0 is free. */
module LinkTable {
  const ROOT: nat := 1

  datatype Kind = FREE | DIR | FILE | DEVICE

  datatype Dirent = Dirent(inum: nat, name: string)

  datatype Inode = Inode(kind: Kind, nlink: nat, entries: seq<Dirent>)

  type Table = seq<Inode>

  const UNUSED := Dirent(0, "")

  /** A directory that is still linked. */
  predicate Live(n: Inode) {
    n.kind.DIR? && n.nlink > 0
  }

  // ----- Counting names -----

  predicate Names(e: Dirent, i: nat) {
    e.inum == i && i != 0 && e.name != "."
  }

  /** How many of these entries, other than ".", name inode `i`. */
  function Count(es: seq<Dirent>, i: nat): nat {
    if es == [] then 0 else Count(es[..|es| - 1], i) + (if Names(es[|es| - 1], i) then 1 else 0)
  }

  function NamesIn(n: Inode, i: nat): nat {
    if Live(n) then Count(n.entries, i) else 0
  }

  /** How many entries, other than ".", of live directories below `n` name inode `i`. */
  function Links(t: Table, i: nat, n: nat): nat
    requires n <= |t|
  {
    if n == 0 then 0 else Links(t, i, n - 1) + NamesIn(t[n - 1], i)
  }

  lemma {:induction false} LinksUpdate(t: Table, d: nat, x: Inode, i: nat, n: nat)
    requires d < |t| && n <= |t|
    ensures d >= n ==> Links(t[d := x], i, n) == Links(t, i, n)
    ensures d < n ==> Links(t[d := x], i, n) + NamesIn(t[d], i) == Links(t, i, n) + NamesIn(x, i)
  {
    if n > 0 { LinksUpdate(t, d, x, i, n - 1); }
  }

  lemma {:induction false} CountUpdate(es: seq<Dirent>, s: nat, e: Dirent, i: nat)
    requires s < |es|
    ensures Count(es[s := e], i) + (if Names(es[s], i) then 1 else 0) == Count(es, i) + (if Names(e, i) then 1 else 0)
  {
    var k := |es| - 1;
    if s == k {
      assert es[s := e][..k] == es[..k];
    } else {
      assert es[s := e][..k] == es[..k][s := e];
      CountUpdate(es[..k], s, e, i);
    }
  }

  lemma CountAppend(es: seq<Dirent>, e: Dirent, i: nat)
    ensures Count(es + [e], i) == Count(es, i) + (if Names(e, i) then 1 else 0)
  {
    assert (es + [e])[..|es|] == es;
  }

  lemma {:induction false} CountNone(es: seq<Dirent>, i: nat)
    requires forall s :: 0 <= s < |es| ==> !Names(es[s], i)
    ensures Count(es, i) == 0
  {
    if es != [] { CountNone(es[..|es| - 1], i); }
  }

  lemma {:induction false} CountOne(es: seq<Dirent>, s: nat, i: nat)
    requires s < |es| && Names(es[s], i) && forall k :: 0 <= k < |es| && k != s ==> !Names(es[k], i)
    ensures Count(es, i) == 1
  {
    var k := |es| - 1;
    if s == k { CountNone(es[..k], i); } else { CountOne(es[..k], s, i); }
  }

  lemma {:induction false} CountSome(es: seq<Dirent>, s: nat, i: nat)
    requires s < |es| && Names(es[s], i)
    ensures Count(es, i) > 0
  {
    if s < |es| - 1 { CountSome(es[..|es| - 1], s, i); }
  }

  lemma {:induction false} LinksSome(t: Table, d: nat, i: nat, n: nat)
    requires d < n <= |t|
    ensures Links(t, i, n) >= NamesIn(t[d], i)
  {
    if d < n - 1 { LinksSome(t, d, i, n - 1); }
  }

  lemma {:induction false} LinksOnly(t: Table, d: nat, i: nat, n: nat)
    requires n <= |t| && forall k :: 0 <= k < n && k != d ==> NamesIn(t[k], i) == 0
    ensures Links(t, i, n) == if d < n then NamesIn(t[d], i) else 0
  {
    if n > 0 { LinksOnly(t, d, i, n - 1); }
  }

  // ----- The invariant -----

  predicate LinkOk(t: Table, i: nat) {
    i < |t| ==> t[i].nlink == Links(t, i, |t|) && (t[i].kind.FREE? ==> t[i].nlink == 0)
  }

  /** What a live directory looks like. */
  predicate ShapeOk(t: Table, d: nat) {
    d < |t| && Live(t[d]) ==>
      && var es := t[d].entries;
      && |es| >= 2 && es[0] == Dirent(d, ".") && es[1].name == ".."
      && es[1].inum < |t| && Live(t[es[1].inum]) && (es[1].inum == d <==> d == ROOT)
  }

  /** Entry `s` of live directory `d`.  A directory is named by one entry, that of its parent. */
  predicate EntryOk(t: Table, d: nat, s: nat) {
    d < |t| && Live(t[d]) && 2 <= s < |t[d].entries| && t[d].entries[s].inum != 0 ==>
      && var c := t[d].entries[s].inum;
      && c < |t| && !t[c].kind.FREE? && t[d].entries[s].name != "." && t[d].entries[s].name != ".."
      && (t[c].kind.DIR? ==>
            && Live(t[c]) && c != ROOT && c != d && |t[c].entries| >= 2 && t[c].entries[1].inum == d
            && forall k :: 2 <= k < |t[d].entries| && k != s ==> t[d].entries[k].inum != c)
  }

  /** Every live directory but the root is named by its parent. */
  predicate ParentOk(t: Table, c: nat) {
    c < |t| && Live(t[c]) && c != ROOT && |t[c].entries| >= 2 && t[c].entries[1].inum < |t| ==>
      exists s :: 2 <= s < |t[t[c].entries[1].inum].entries| && t[t[c].entries[1].inum].entries[s].inum == c
  }

  /** No two entries of a live directory have the same name. */
  predicate UniqueOk(t: Table, d: nat, j: nat, k: nat) {
    d < |t| && Live(t[d]) && j < k < |t[d].entries| && t[d].entries[j].inum != 0 && t[d].entries[k].inum != 0 ==>
      t[d].entries[j].name != t[d].entries[k].name
  }

  ghost predicate Inv(t: Table) {
    && ROOT < |t| && Live(t[ROOT]) && t[0].kind.FREE?
    && (forall i: nat :: LinkOk(t, i))
    && (forall d: nat :: ShapeOk(t, d))
    && (forall d: nat, s: nat :: EntryOk(t, d, s))
    && (forall c: nat :: ParentOk(t, c))
    && (forall d: nat, j: nat, k: nat :: UniqueOk(t, d, j, k))
  }

  /** An inode with no links is named by no entry of a live directory. */
  lemma NoLinksNoNames(t: Table, i: nat, d: nat, s: nat)
    requires Inv(t) && i < |t| && t[i].nlink == 0 && d < |t| && Live(t[d]) && s < |t[d].entries|
    ensures !Names(t[d].entries[s], i)
  {
    assert LinkOk(t, i);
    LinksSome(t, d, i, |t|);
    if Names(t[d].entries[s], i) { CountSome(t[d].entries, s, i); }
  }

  // ----- Adding an entry -----

  /** dirlink's writei: entry `s` of directory `d`, in a free slot or at the end. */
  function Enter(t: Table, d: nat, s: nat, e: Dirent): Table
    requires d < |t| && s <= |t[d].entries|
  {
    var es := t[d].entries;
    t[d := t[d].(entries := if s < |es| then es[s := e] else es + [e])]
  }

  predicate Slot(t: Table, d: nat, s: nat) {
    d < |t| && s <= |t[d].entries| && (s < |t[d].entries| ==> t[d].entries[s].inum == 0)
  }

  lemma EnterLinks(t: Table, d: nat, s: nat, e: Dirent, i: nat)
    requires Slot(t, d, s) && Live(t[d])
    ensures Links(Enter(t, d, s, e), i, |t|) == Links(t, i, |t|) + (if Names(e, i) then 1 else 0)
  {
    var es := t[d].entries;
    LinksUpdate(t, d, t[d].(entries := if s < |es| then es[s := e] else es + [e]), i, |t|);
    if s < |es| { CountUpdate(es, s, e, i); } else { CountAppend(es, e, i); }
  }

  /** sys_link: one more name and one more link for an inode that is not a directory. */
  function AddName(t: Table, d: nat, s: nat, name: string, c: nat): Table
    requires d < |t| && s <= |t[d].entries| && c < |t|
  {
    var u := Enter(t, d, s, Dirent(c, name));
    u[c := u[c].(nlink := u[c].nlink + 1)]
  }

  predicate NewName(name: string) {
    name != "." && name != ".."
  }

  /** No used entry has this name. */
  predicate Absent(es: seq<Dirent>, name: string) {
    forall k :: 0 <= k < |es| && es[k].inum != 0 ==> es[k].name != name
  }

  /** Used entry `s` has this name. */
  predicate Has(es: seq<Dirent>, s: nat, name: string) {
    s < |es| && es[s].inum != 0 && es[s].name == name
  }

  /** The first free slot, or the end. */
  predicate First(es: seq<Dirent>, s: nat) {
    s <= |es| && (s < |es| ==> es[s].inum == 0) && forall k :: 0 <= k < s ==> es[k].inum != 0
  }

  /** There is room for one more entry, when `full` says that the directory cannot grow. */
  predicate Room(es: seq<Dirent>, full: bool) {
    !full || exists k :: 0 <= k < |es| && es[k].inum == 0
  }

  lemma EnterUnique(t: Table, d: nat, s: nat, e: Dirent, x: nat, j: nat, k: nat)
    requires Slot(t, d, s) && Absent(t[d].entries, e.name) && UniqueOk(t, x, j, k)
    ensures UniqueOk(Enter(t, d, s, e), x, j, k)
  {
  }

  /** A live directory has at most one entry of a name. */
  lemma NameIsOne(t: Table, d: nat, j: nat, k: nat, name: string)
    requires Inv(t) && d < |t| && Live(t[d]) && Has(t[d].entries, j, name) && Has(t[d].entries, k, name)
    ensures j == k
  {
    assert UniqueOk(t, d, j, k) && UniqueOk(t, d, k, j);
  }

  /** Clearing entries, and changing what is not a live directory, makes no two names equal. */
  lemma FewerUnique(t: Table, u: Table, x: nat, j: nat, k: nat)
    requires UniqueOk(t, x, j, k)
    requires x < |u| && Live(u[x]) ==>
               && x < |t| && Live(t[x]) && |u[x].entries| == |t[x].entries|
               && forall m :: 0 <= m < |u[x].entries| ==>
                   u[x].entries[m].inum == 0 || u[x].entries[m] == t[x].entries[m]
    ensures UniqueOk(u, x, j, k)
  {
  }

  /** The link may be counted first. */
  lemma LinkThenEnter(t: Table, d: nat, s: nat, name: string, c: nat)
    requires d < |t| && s <= |t[d].entries| && c < |t| && c != d
    ensures Enter(t[c := t[c].(nlink := t[c].nlink + 1)], d, s, Dirent(c, name)) == AddName(t, d, s, name, c)
  {
  }

  lemma AddNameLinks(t: Table, d: nat, s: nat, name: string, c: nat, i: nat)
    requires Inv(t) && Slot(t, d, s) && Live(t[d]) && NewName(name)
    requires 0 < c < |t| && !t[c].kind.DIR? && !t[c].kind.FREE?
    ensures LinkOk(AddName(t, d, s, name, c), i)
  {
    assert LinkOk(t, i);
    var u := Enter(t, d, s, Dirent(c, name));
    EnterLinks(t, d, s, Dirent(c, name), i);
    LinksUpdate(u, c, u[c].(nlink := u[c].nlink + 1), i, |u|);
  }

  lemma AddNameInv(t: Table, d: nat, s: nat, name: string, c: nat)
    requires Inv(t) && Slot(t, d, s) && Live(t[d]) && NewName(name) && Absent(t[d].entries, name)
    requires 0 < c < |t| && !t[c].kind.DIR? && !t[c].kind.FREE?
    ensures Inv(AddName(t, d, s, name, c))
  {
    var u := AddName(t, d, s, name, c);
    assert ShapeOk(t, d);
    forall i: nat ensures LinkOk(u, i) { AddNameLinks(t, d, s, name, c, i); }
    forall x: nat ensures ShapeOk(u, x) { assert ShapeOk(t, x); }
    forall x: nat, k: nat ensures EntryOk(u, x, k) { assert EntryOk(t, x, k); }
    forall x: nat ensures ParentOk(u, x) {
      assert ParentOk(t, x) && ShapeOk(t, x);
      KeepParent(t, u, x);
    }
    forall x: nat, j: nat, k: nat ensures UniqueOk(u, x, j, k) {
      assert UniqueOk(t, x, j, k);
      EnterUnique(t, d, s, Dirent(c, name), x, j, k);
    }
  }

  /** The entry that names `x` in its parent is still there. */
  predicate Undisturbed(t: Table, u: Table, p: nat, x: nat) {
    p < |t| == |u| ==>
      forall k :: 2 <= k < |t[p].entries| && t[p].entries[k].inum == x ==>
        k < |u[p].entries| && u[p].entries[k].inum == x
  }

  lemma KeepParent(t: Table, u: Table, x: nat)
    requires |u| == |t| && ParentOk(t, x) && ShapeOk(t, x)
    requires x < |t| && Live(u[x]) && x != ROOT ==>
               && Live(t[x]) && |u[x].entries| >= 2 && u[x].entries[1] == t[x].entries[1]
               && Undisturbed(t, u, t[x].entries[1].inum, x)
    ensures ParentOk(u, x)
  {
    if x < |t| && Live(u[x]) && x != ROOT {
      var p := t[x].entries[1].inum;
      var k :| 2 <= k < |t[p].entries| && t[p].entries[k].inum == x;
      assert u[p].entries[k].inum == x;
    }
  }

  // ----- A new inode -----

  /** create: inode `c`, and its name in directory `d`. */
  function AddFile(t: Table, d: nat, s: nat, name: string, c: nat, kind: Kind): Table
    requires d < |t| && s <= |t[d].entries| && c < |t|
  {
    Enter(t, d, s, Dirent(c, name))[c := Inode(kind, 1, [])]
  }

  lemma AddFileLinks(t: Table, d: nat, s: nat, name: string, c: nat, kind: Kind, i: nat)
    requires Inv(t) && Slot(t, d, s) && Live(t[d]) && NewName(name)
    requires 0 < c < |t| && t[c].kind.FREE? && (kind.FILE? || kind.DEVICE?)
    ensures LinkOk(AddFile(t, d, s, name, c, kind), i)
  {
    assert LinkOk(t, i) && LinkOk(t, c);
    EnterLinks(t, d, s, Dirent(c, name), i);
    LinksUpdate(Enter(t, d, s, Dirent(c, name)), c, Inode(kind, 1, []), i, |t|);
  }

  lemma AddFileParent(t: Table, d: nat, s: nat, name: string, c: nat, kind: Kind, x: nat)
    requires Inv(t) && Slot(t, d, s) && Live(t[d]) && 0 < c < |t| && t[c].kind.FREE? && (kind.FILE? || kind.DEVICE?)
    ensures ParentOk(AddFile(t, d, s, name, c, kind), x)
  {
    assert ParentOk(t, x) && ShapeOk(t, x) && ShapeOk(t, d);
    if x < |t| && Live(t[x]) && x != ROOT { assert ShapeOk(t, t[x].entries[1].inum); }
    KeepParent(t, AddFile(t, d, s, name, c, kind), x);
  }

  lemma AddFileInv(t: Table, d: nat, s: nat, name: string, c: nat, kind: Kind)
    requires Inv(t) && Slot(t, d, s) && Live(t[d]) && NewName(name) && Absent(t[d].entries, name)
    requires 0 < c < |t| && t[c].kind.FREE? && (kind.FILE? || kind.DEVICE?)
    ensures Inv(AddFile(t, d, s, name, c, kind))
  {
    var u := AddFile(t, d, s, name, c, kind);
    assert ShapeOk(t, d);
    forall i: nat ensures LinkOk(u, i) { AddFileLinks(t, d, s, name, c, kind, i); }
    forall x: nat ensures ShapeOk(u, x) { assert ShapeOk(t, x); }
    forall x: nat, k: nat ensures EntryOk(u, x, k) { assert EntryOk(t, x, k); }
    forall x: nat ensures ParentOk(u, x) { AddFileParent(t, d, s, name, c, kind, x); }
    forall x: nat, j: nat, k: nat ensures UniqueOk(u, x, j, k) {
      assert UniqueOk(t, x, j, k);
      EnterUnique(t, d, s, Dirent(c, name), x, j, k);
    }
  }

  /** create with T_DIR: "." and "..", the name, and the parent's link for "..". */
  function AddDir(t: Table, d: nat, s: nat, name: string, c: nat): Table
    requires d < |t| && s <= |t[d].entries| && c < |t|
  {
    var u := Enter(t, d, s, Dirent(c, name))[c := Inode(DIR, 1, [Dirent(c, "."), Dirent(d, "..")])];
    u[d := u[d].(nlink := u[d].nlink + 1)]
  }

  lemma DotCount(c: nat, d: nat, i: nat)
    ensures Count([Dirent(c, "."), Dirent(d, "..")], i) == if i == d && i != 0 then 1 else 0
  {
    var es := [Dirent(c, "."), Dirent(d, "..")];
    assert es[..1] == [Dirent(c, ".")] && es[..1][..0] == [] && es[1] == Dirent(d, "..") && |".."| == 2;
    assert Count(es[..1], i) == 0;
  }

  lemma AddDirLinks(t: Table, d: nat, s: nat, name: string, c: nat, i: nat)
    requires Inv(t) && Slot(t, d, s) && Live(t[d]) && NewName(name) && 0 < c < |t| && t[c].kind.FREE? && d != 0
    ensures LinkOk(AddDir(t, d, s, name, c), i)
  {
    assert LinkOk(t, i) && LinkOk(t, c);
    var u := Enter(t, d, s, Dirent(c, name));
    var n := Inode(DIR, 1, [Dirent(c, "."), Dirent(d, "..")]);
    EnterLinks(t, d, s, Dirent(c, name), i);
    LinksUpdate(u, c, n, i, |t|);
    DotCount(c, d, i);
    LinksUpdate(u[c := n], d, u[d].(nlink := u[d].nlink + 1), i, |t|);
  }

  lemma AddDirInv(t: Table, d: nat, s: nat, name: string, c: nat)
    requires Inv(t) && Slot(t, d, s) && Live(t[d]) && NewName(name) && Absent(t[d].entries, name)
    requires 0 < c < |t| && t[c].kind.FREE?
    ensures Inv(AddDir(t, d, s, name, c))
  {
    var u := AddDir(t, d, s, name, c);
    assert ShapeOk(t, d) && LinkOk(t, c) && c != d && d != 0;
    forall i: nat ensures LinkOk(u, i) { AddDirLinks(t, d, s, name, c, i); }
    forall x: nat ensures ShapeOk(u, x) { assert ShapeOk(t, x); }
    forall x: nat, k: nat ensures EntryOk(u, x, k) { AddDirEntry(t, d, s, name, c, x, k); }
    forall x: nat ensures ParentOk(u, x) {
      assert ParentOk(t, x) && ShapeOk(t, x);
      if x == c { assert u[d].entries[s].inum == c; } else { KeepParent(t, u, x); }
    }
    forall x: nat, j: nat, k: nat ensures UniqueOk(u, x, j, k) {
      assert UniqueOk(t, x, j, k) && |".."| == 2;
      EnterUnique(t, d, s, Dirent(c, name), x, j, k);
    }
  }

  lemma AddDirEntry(t: Table, d: nat, s: nat, name: string, c: nat, x: nat, k: nat)
    requires Inv(t) && Slot(t, d, s) && Live(t[d]) && NewName(name) && 0 < c < |t| && t[c].kind.FREE? && c != d
    ensures EntryOk(AddDir(t, d, s, name, c), x, k)
  {
    assert EntryOk(t, x, k) && ShapeOk(t, d) && LinkOk(t, c) && ShapeOk(t, x);
    forall m: nat | 2 <= m < |t[d].entries| ensures t[d].entries[m].inum != c { assert EntryOk(t, d, m); }
  }

  // ----- Removing an entry -----

  /** sys_unlink of an inode that is not a directory. */
  function DropName(t: Table, d: nat, s: nat): Table
    requires d < |t| && s < |t[d].entries| && t[d].entries[s].inum < |t| && t[t[d].entries[s].inum].nlink > 0
  {
    var c := t[d].entries[s].inum;
    var u := t[d := t[d].(entries := t[d].entries[s := UNUSED])];
    if u[c].nlink == 0 then u else u[c := u[c].(nlink := u[c].nlink - 1)]
  }

  predicate Named(t: Table, d: nat, s: nat) {
    d < |t| && Live(t[d]) && 2 <= s < |t[d].entries| && t[d].entries[s].inum != 0
  }

  lemma NamedIsLinked(t: Table, d: nat, s: nat)
    requires Inv(t) && Named(t, d, s)
    ensures var c := t[d].entries[s].inum; c < |t| && t[c].nlink > 0 && !t[c].kind.FREE?
  {
    var c := t[d].entries[s].inum;
    assert EntryOk(t, d, s) && LinkOk(t, c);
    CountSome(t[d].entries, s, c);
    LinksSome(t, d, c, |t|);
  }

  lemma ClearLinks(t: Table, d: nat, s: nat, i: nat)
    requires Named(t, d, s) && t[d].entries[s].name != "."
    ensures Links(t[d := t[d].(entries := t[d].entries[s := UNUSED])], i, |t|)
            + (if i == t[d].entries[s].inum then 1 else 0) == Links(t, i, |t|)
  {
    LinksUpdate(t, d, t[d].(entries := t[d].entries[s := UNUSED]), i, |t|);
    CountUpdate(t[d].entries, s, UNUSED, i);
  }

  lemma DropNameInv(t: Table, d: nat, s: nat)
    requires Inv(t) && Named(t, d, s) && t[d].entries[s].inum < |t| && t[t[d].entries[s].inum].nlink > 0
    requires !t[t[d].entries[s].inum].kind.DIR?
    ensures Inv(DropName(t, d, s))
  {
    var c := t[d].entries[s].inum;
    var u := DropName(t, d, s);
    assert EntryOk(t, d, s);
    forall i: nat ensures LinkOk(u, i) {
      assert LinkOk(t, i);
      ClearLinks(t, d, s, i);
      LinksUpdate(t[d := t[d].(entries := t[d].entries[s := UNUSED])], c, u[c], i, |t|);
    }
    forall x: nat ensures ShapeOk(u, x) { assert ShapeOk(t, x); }
    forall x: nat, k: nat ensures EntryOk(u, x, k) { assert EntryOk(t, x, k); }
    forall x: nat ensures ParentOk(u, x) {
      assert ParentOk(t, x) && ShapeOk(t, x);
      KeepParent(t, u, x);
    }
    forall x: nat, j: nat, k: nat ensures UniqueOk(u, x, j, k) {
      assert UniqueOk(t, x, j, k);
      FewerUnique(t, u, x, j, k);
    }
  }

  // ----- Removing a directory -----

  predicate Empty(es: seq<Dirent>) {
    forall k :: 2 <= k < |es| ==> es[k].inum == 0
  }

  /** A directory whose ".." is `c` is named in `c`, so an empty `c` has none. */
  lemma NoChildren(t: Table, c: nat, d: nat)
    requires Inv(t) && c < |t| && Live(t[c]) && c != ROOT && Empty(t[c].entries) && d < |t| && Live(t[d])
    ensures |t[d].entries| >= 2 && t[d].entries[1].inum != c
  {
    assert ShapeOk(t, d) && ParentOk(t, d) && ShapeOk(t, c) && LinkOk(t, 0);
  }

  lemma OnlyParentNames(t: Table, c: nat, d: nat, k: nat)
    requires Inv(t) && c < |t| && Live(t[c]) && c != ROOT && Empty(t[c].entries)
    requires d < |t| && Live(t[d]) && k < |t[d].entries| && Names(t[d].entries[k], c)
    ensures k >= 2 && |t[c].entries| >= 2 && d == t[c].entries[1].inum
  {
    NoChildren(t, c, d);
    assert ShapeOk(t, d) && ShapeOk(t, c) && EntryOk(t, d, k);
  }

  lemma EmptyHasOneLink(t: Table, c: nat)
    requires Inv(t) && c < |t| && Live(t[c]) && c != ROOT && Empty(t[c].entries)
    ensures t[c].nlink == 1
  {
    assert ShapeOk(t, c) && ParentOk(t, c) && LinkOk(t, c) && LinkOk(t, 0);
    var p := t[c].entries[1].inum;
    var s :| 2 <= s < |t[p].entries| && t[p].entries[s].inum == c;
    assert EntryOk(t, p, s);
    forall k | 0 <= k < |t[p].entries| && k != s ensures !Names(t[p].entries[k], c) {
      if Names(t[p].entries[k], c) { OnlyParentNames(t, c, p, k); }
    }
    CountOne(t[p].entries, s, c);
    forall d | 0 <= d < |t| && d != p ensures NamesIn(t[d], c) == 0 {
      if Live(t[d]) {
        forall k | 0 <= k < |t[d].entries| ensures !Names(t[d].entries[k], c) {
          if Names(t[d].entries[k], c) { OnlyParentNames(t, c, d, k); }
        }
        CountNone(t[d].entries, c);
      }
    }
    LinksOnly(t, p, c, |t|);
  }

  lemma EmptyNamesParent(t: Table, c: nat, i: nat)
    requires Inv(t) && c < |t| && Live(t[c]) && Empty(t[c].entries)
    ensures |t[c].entries| >= 2 && Count(t[c].entries, i) == if i == t[c].entries[1].inum then 1 else 0
  {
    assert ShapeOk(t, c) && LinkOk(t, 0) && |".."| == 2;
    if i == t[c].entries[1].inum { CountOne(t[c].entries, 1, i); } else { CountNone(t[c].entries, i); }
  }

  lemma {:induction false} LinksTwo(t: Table, a: nat, b: nat, i: nat, n: nat)
    requires a < n <= |t| && b < n && a != b
    ensures Links(t, i, n) >= NamesIn(t[a], i) + NamesIn(t[b], i)
  {
    if a == n - 1 { LinksSome(t, b, i, n - 1); }
    else if b == n - 1 { LinksSome(t, a, i, n - 1); }
    else { LinksTwo(t, a, b, i, n - 1); }
  }

  /** A directory with a subdirectory has a link for it besides its own name. */
  lemma ParentHasTwoLinks(t: Table, c: nat)
    requires Inv(t) && c < |t| && Live(t[c]) && c != ROOT && Empty(t[c].entries)
    ensures |t[c].entries| >= 2 && var d := t[c].entries[1].inum; d < |t| && Live(t[d]) && t[d].nlink >= 2
  {
    assert ShapeOk(t, c) && |".."| == 2;
    var d := t[c].entries[1].inum;
    assert ShapeOk(t, d) && ParentOk(t, d) && LinkOk(t, d) && LinkOk(t, 0);
    EmptyNamesParent(t, c, d);
    var p := t[d].entries[1].inum;
    if d == ROOT {
      CountSome(t[d].entries, 1, d);
      LinksTwo(t, c, d, d, |t|);
    } else {
      var k :| 2 <= k < |t[p].entries| && t[p].entries[k].inum == d;
      assert EntryOk(t, p, k) && p != c;
      CountSome(t[p].entries, k, d);
      LinksTwo(t, c, p, d, |t|);
    }
  }

  /** sys_unlink of an empty directory: its name, its link, and its parent's link for "..". */
  function DropDir(t: Table, d: nat, s: nat): Table
    requires d < |t| && s < |t[d].entries| && t[d].entries[s].inum < |t|
    requires t[d].nlink > 0 && t[t[d].entries[s].inum].nlink > 0
  {
    var c := t[d].entries[s].inum;
    var u := t[d := Inode(t[d].kind, t[d].nlink - 1, t[d].entries[s := UNUSED])];
    if u[c].nlink == 0 then u else u[c := u[c].(nlink := u[c].nlink - 1)]
  }

  predicate CanDropDir(t: Table, d: nat, s: nat) {
    && Named(t, d, s) && t[d].entries[s].inum < |t| && Live(t[t[d].entries[s].inum])
    && Empty(t[t[d].entries[s].inum].entries)
  }

  lemma DropDirFacts(t: Table, d: nat, s: nat)
    requires Inv(t) && CanDropDir(t, d, s)
    ensures var c := t[d].entries[s].inum;
      && c != ROOT && c != d && c != 0 && |t[c].entries| >= 2 && t[c].entries[1].inum == d
      && t[c].nlink == 1 && t[d].nlink >= 2 && t[d].entries[s].name != "."
      && DropDir(t, d, s)[c].nlink == 0 && Live(DropDir(t, d, s)[d])
  {
    var c := t[d].entries[s].inum;
    assert EntryOk(t, d, s);
    EmptyHasOneLink(t, c);
    ParentHasTwoLinks(t, c);
  }

  lemma DropDirLinks(t: Table, d: nat, s: nat, i: nat)
    requires Inv(t) && CanDropDir(t, d, s)
    ensures LinkOk(DropDir(t, d, s), i)
  {
    DropDirFacts(t, d, s);
    var c := t[d].entries[s].inum;
    var v := t[d := t[d].(entries := t[d].entries[s := UNUSED])];
    var w := v[d := v[d].(nlink := v[d].nlink - 1)];
    assert LinkOk(t, i);
    ClearLinks(t, d, s, i);
    LinksUpdate(v, d, w[d], i, |t|);
    LinksUpdate(w, c, w[c].(nlink := 0), i, |t|);
    EmptyNamesParent(t, c, i);
    assert DropDir(t, d, s) == w[c := w[c].(nlink := 0)];
  }

  lemma DropDirRest(t: Table, d: nat, s: nat, x: nat, k: nat)
    requires Inv(t) && CanDropDir(t, d, s)
    ensures ShapeOk(DropDir(t, d, s), x) && EntryOk(DropDir(t, d, s), x, k)
  {
    DropDirFacts(t, d, s);
    var c := t[d].entries[s].inum;
    assert ShapeOk(t, x) && EntryOk(t, x, k) && EntryOk(t, d, s);
    if x < |t| && Live(t[x]) { NoChildren(t, c, x); }
  }

  lemma DropDirParent(t: Table, d: nat, s: nat, x: nat)
    requires Inv(t) && CanDropDir(t, d, s)
    ensures ParentOk(DropDir(t, d, s), x)
  {
    DropDirFacts(t, d, s);
    assert ParentOk(t, x) && ShapeOk(t, x);
    if x < |t| && Live(t[x]) && x != ROOT { assert ShapeOk(t, t[x].entries[1].inum); }
    KeepParent(t, DropDir(t, d, s), x);
  }

  lemma DropDirInv(t: Table, d: nat, s: nat)
    requires Inv(t) && CanDropDir(t, d, s)
    ensures t[d].nlink > 0 && t[t[d].entries[s].inum].nlink > 0 && Inv(DropDir(t, d, s))
  {
    DropDirFacts(t, d, s);
    var u := DropDir(t, d, s);
    forall i: nat ensures LinkOk(u, i) { DropDirLinks(t, d, s, i); }
    forall x: nat ensures ShapeOk(u, x) { DropDirRest(t, d, s, x, 0); }
    forall x: nat, k: nat ensures EntryOk(u, x, k) { DropDirRest(t, d, s, x, k); }
    forall x: nat ensures ParentOk(u, x) { DropDirParent(t, d, s, x); }
    forall x: nat, j: nat, k: nat ensures UniqueOk(u, x, j, k) {
      assert UniqueOk(t, x, j, k);
      FewerUnique(t, u, x, j, k);
    }
  }

  // ----- iput's last reference -----

  function Freed(t: Table, i: nat): Table
    requires i < |t|
  {
    t[i := Inode(FREE, 0, [])]
  }

  lemma FreedInv(t: Table, i: nat)
    requires Inv(t) && i < |t| && t[i].nlink == 0
    ensures Inv(Freed(t, i))
  {
    var u := Freed(t, i);
    forall x: nat ensures LinkOk(u, x) {
      assert LinkOk(t, x);
      LinksUpdate(t, i, u[i], x, |t|);
    }
    forall x: nat ensures ShapeOk(u, x) { assert ShapeOk(t, x); }
    forall x: nat, k: nat ensures EntryOk(u, x, k) { FreedEntry(t, i, x, k); }
    forall x: nat ensures ParentOk(u, x) {
      assert ParentOk(t, x) && ShapeOk(t, x);
      if x < |t| && Live(t[x]) && x != ROOT { assert ShapeOk(t, t[x].entries[1].inum); }
      KeepParent(t, u, x);
    }
    forall x: nat, j: nat, k: nat ensures UniqueOk(u, x, j, k) {
      assert UniqueOk(t, x, j, k);
      FewerUnique(t, u, x, j, k);
    }
  }

  lemma FreedEntry(t: Table, i: nat, x: nat, k: nat)
    requires Inv(t) && i < |t| && t[i].nlink == 0
    ensures EntryOk(Freed(t, i), x, k)
  {
    assert EntryOk(t, x, k);
    if x < |t| && Live(t[x]) && k < |t[x].entries| { NoLinksNoNames(t, i, x, k); }
  }

  // ----- What live directories name -----

  lemma NamedHasLink(t: Table, d: nat, k: nat)
    requires Inv(t) && d < |t| && Live(t[d]) && k < |t[d].entries|
    ensures var c := t[d].entries[k].inum; c < |t| && (c != 0 ==> t[c].nlink > 0)
  {
    assert ShapeOk(t, d) && EntryOk(t, d, k) && LinkOk(t, 0);
    if t[d].entries[k].inum != 0 && k >= 2 { NamedIsLinked(t, d, k); }
  }

  /** "." and ".." are taken in every live directory. */
  lemma DotsTaken(t: Table, d: nat, name: string)
    requires Inv(t) && d < |t| && Live(t[d])
    requires Absent(t[d].entries, name)
    ensures NewName(name)
  {
    assert ShapeOk(t, d) && LinkOk(t, 0);
    assert t[d].entries[0].inum != 0 && t[d].entries[1].inum != 0;
  }

  lemma FoundBeyondDots(t: Table, d: nat, s: nat)
    requires Inv(t) && d < |t| && Live(t[d]) && s < |t[d].entries| && t[d].entries[s].inum != 0
    requires NewName(t[d].entries[s].name)
    ensures s >= 2 && Named(t, d, s) && var c := t[d].entries[s].inum;
      c != d && c < |t| && t[c].nlink > 0 && !t[c].kind.FREE?
  {
    assert ShapeOk(t, d) && EntryOk(t, d, s);
    NamedIsLinked(t, d, s);
  }

  predicate Droppable(t: Table, d: nat, s: nat) {
    && Named(t, d, s) && t[d].nlink > 0 && t[d].entries[s].inum < |t| && t[t[d].entries[s].inum].nlink > 0
    && t[d].entries[s].inum != d
    && (t[t[d].entries[s].inum].kind.DIR? ==> Empty(t[t[d].entries[s].inum].entries))
  }

  /** The name is new in directory `d`, has its place there, and is for a file or a device. */
  predicate CanLink(t: Table, d: nat, name: string, c: nat, full: bool) {
    d < |t| && c < |t| && !t[c].kind.DIR? && Absent(t[d].entries, name) && Room(t[d].entries, full)
  }

  /** The directory has an entry of this name, not for itself or its parent, and what it names is
      not a directory in use. */
  ghost predicate CanUnlink(t: Table, d: nat, name: string) {
    && d < |t| && NewName(name)
    && exists s: nat :: Has(t[d].entries, s, name) && Removable(t, t[d].entries[s].inum)
  }

  predicate Removable(t: Table, c: nat) {
    c < |t| && (t[c].kind.DIR? ==> Empty(t[c].entries))
  }

  /** The directory has an entry of this name for a file or a device, and `kind` asks for a file. */
  ghost predicate CanOpen(t: Table, d: nat, name: string, kind: Kind) {
    d < |t| && kind.FILE? && exists s: nat :: Has(t[d].entries, s, name) && Openable(t, t[d].entries[s].inum)
  }

  predicate Openable(t: Table, c: nat) {
    c < |t| && !t[c].kind.DIR?
  }

  /** The name is new, an inode is free, and each of the directory entries has its place. */
  predicate CanMake(t: Table, d: nat, name: string, kind: Kind, full: seq<bool>)
    requires |full| == 3
  {
    && d < |t| && Absent(t[d].entries, name) && (exists i :: 1 <= i < |t| && t[i].kind.FREE?)
    && (kind.DIR? ==> !full[0] && !full[1]) && Room(t[d].entries, full[2])
  }

  ghost predicate CanCreate(t: Table, d: nat, name: string, kind: Kind, full: seq<bool>)
    requires |full| == 3
  {
    CanOpen(t, d, name, kind) || CanMake(t, d, name, kind, full)
  }

  /** sys_unlink of entry `s` of directory `d`. */
  function Unlinked(t: Table, d: nat, s: nat): Table
    requires Droppable(t, d, s)
  {
    if t[t[d].entries[s].inum].kind.DIR? then DropDir(t, d, s) else DropName(t, d, s)
  }

  /** The same, with iput's freeing when the last reference goes. */
  function AfterUnlink(t: Table, d: nat, s: nat, last: bool): Table
    requires Droppable(t, d, s)
  {
    var u := Unlinked(t, d, s);
    var c := t[d].entries[s].inum;
    if last && u[c].nlink == 0 then Freed(u, c) else u
  }

  /** create's success: a new inode and its name. */
  function Created(t: Table, d: nat, s: nat, name: string, c: nat, kind: Kind): Table
    requires d < |t| && s <= |t[d].entries| && c < |t|
  {
    if kind.DIR? then AddDir(t, d, s, name, c) else AddFile(t, d, s, name, c, kind)
  }

  lemma FoundIsLinked(t: Table, d: nat, k: nat)
    requires Inv(t) && d < |t| && Live(t[d]) && k < |t[d].entries| && t[d].entries[k].inum != 0
    ensures var c := t[d].entries[k].inum; c < |t| && t[c].nlink > 0 && !t[c].kind.FREE?
  {
    NamedHasLink(t, d, k);
    assert LinkOk(t, t[d].entries[k].inum);
  }

  lemma CreatedInv(t: Table, d: nat, s: nat, name: string, c: nat, kind: Kind)
    requires Inv(t) && Slot(t, d, s) && Live(t[d]) && NewName(name) && Absent(t[d].entries, name)
    requires 0 < c < |t| && t[c].kind.FREE? && !kind.FREE?
    ensures Inv(Created(t, d, s, name, c, kind))
  {
    if kind.DIR? { AddDirInv(t, d, s, name, c); } else { AddFileInv(t, d, s, name, c, kind); }
  }

  /** Between the two halves of sys_unlink the inode still has its link. */
  function HalfUnlinked(t: Table, d: nat, s: nat): Table
    requires Droppable(t, d, s)
  {
    var c := t[d].entries[s].inum;
    Unlinked(t, d, s)[c := t[c]]
  }

  lemma UnlinkedInv(t: Table, d: nat, s: nat)
    requires Inv(t) && Droppable(t, d, s)
    ensures Inv(Unlinked(t, d, s)) && HalfUnlinked(t, d, s)[d].nlink > 0
    ensures var c := t[d].entries[s].inum;
      && c != d && Unlinked(t, d, s)[c].nlink == t[c].nlink - 1
      && Unlinked(t, d, s) == HalfUnlinked(t, d, s)[c := t[c].(nlink := t[c].nlink - 1)]
      && (Unlinked(t, d, s)[c].nlink == 0 ==> Inv(Freed(Unlinked(t, d, s), c)))
  {
    var c := t[d].entries[s].inum;
    assert EntryOk(t, d, s);
    if t[c].kind.DIR? {
      DropDirInv(t, d, s);
      DropDirFacts(t, d, s);
    } else {
      DropNameInv(t, d, s);
    }
    if Unlinked(t, d, s)[c].nlink == 0 { FreedInv(Unlinked(t, d, s), c); }
  }
}
