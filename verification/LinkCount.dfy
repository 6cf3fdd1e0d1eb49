/** sysfile.c: create, sys_link, sys_unlink and isdirempty, with iget, ilock, iput, ialloc,
    dirlookup and dirlink of fs.c, on the inodes of LinkTable.  Path lookup is a parameter:
    what namei or nameiparent has found. */
module LinkCount {
  import opened Common
  import opened LinkTable

  class Fs {
    var inode: Table
    var refs: seq<nat>     // ip->ref, 0 for an inode without an entry in the inode table
    var valid: seq<bool>   // ip->valid

    predicate Sized()
      reads this
    {
      |refs| == |valid| == |inode|
    }

    /** No entry of a live directory, other than ".", names `i`. */
    ghost predicate Unnamed(i: nat)
      reads this
    {
      forall d, s :: 0 <= d < |inode| && Live(inode[d]) && 0 <= s < |inode[d].entries| ==>
          !Names(inode[d].entries[s], i)
    }

    predicate HeldOk(i: nat)
      reads this
    {
      i < |inode| && Sized() ==>
        && (inode[i].kind.FREE? ==> inode[i] == Inode(FREE, 0, []) && refs[i] == 0)
        && (!inode[i].kind.FREE? && inode[i].nlink == 0 ==> refs[i] > 0 && valid[i])
    }

    /** Link counts equal names, and an inode without links is still allocated only while
        somebody refers to it. */
    ghost predicate Good()
      reads this
    {
      Sized() && Inv(inode) && forall i: nat :: HeldOk(i)
    }

    /** fs.c:247-277. */
    method Iget(i: nat)
      requires Sized() && i < |inode|
      modifies this`refs, this`valid
      ensures Sized() && refs == old(refs)[i := old(refs)[i] + 1]
      ensures valid == if old(refs)[i] == 0 then old(valid)[i := false] else old(valid)
    {
      if refs[i] == 0 {
        valid := valid[i := false];
      }
      refs := refs[i := refs[i] + 1];
    }

    method Ilock(i: nat)
      requires Sized() && i < |inode| && refs[i] > 0 && !inode[i].kind.FREE?   // the panics of ilock
      modifies this`valid
      ensures Sized() && valid == old(valid)[i := true]
    {
      valid := valid[i := true];
    }

    /** fs.c:336-362.  It frees an inode only when no live directory names it. */
    method Iput(i: nat)
      requires Sized() && i < |inode| && refs[i] > 0 && (inode[i].nlink == 0 ==> Unnamed(i))
      modifies this`inode, this`refs, this`valid
      ensures Sized() && refs == old(refs)[i := old(refs)[i] - 1]
      ensures if old(refs)[i] == 1 && old(valid)[i] && old(inode)[i].nlink == 0
              then inode == Freed(old(inode), i) && valid == old(valid)[i := false]
              else inode == old(inode) && valid == old(valid)
    {
      if refs[i] == 1 && valid[i] && inode[i].nlink == 0 {
        inode := inode[i := Inode(FREE, 0, [])];
        valid := valid[i := false];
      }
      refs := refs[i := refs[i] - 1];
    }

    lemma UnnamedIfGood(i: nat)
      requires Inv(inode) && i < |inode|
      ensures inode[i].nlink == 0 ==> Unnamed(i)
    {
      if inode[i].nlink == 0 {
        forall d, s | 0 <= d < |inode| && Live(inode[d]) && 0 <= s < |inode[d].entries|
          ensures !Names(inode[d].entries[s], i)
        {
          NoLinksNoNames(inode, i, d, s);
        }
      }
    }

    /** Dropping a reference, as fileclose and exit do, keeps everything. */
    method Drop(i: nat)
      requires Good() && i < |inode| && refs[i] > 0
      modifies this`inode, this`refs, this`valid
      ensures Good() && refs == old(refs)[i := old(refs)[i] - 1]
      ensures inode == if old(refs)[i] == 1 && old(inode)[i].nlink == 0 then Freed(old(inode), i) else old(inode)
    {
      assert HeldOk(i);
      UnnamedIfGood(i);
      if inode[i].nlink == 0 { FreedInv(inode, i); }
      label before:
      Iput(i);
      forall k: nat ensures HeldOk(k) { assert old@before(HeldOk(k)); }
    }

    /** fs.c:198-219, up to its iget. */
    method Ialloc(kind: Kind) returns (r: nat)
      requires Sized() && !kind.FREE?
      modifies this`inode, this`refs, this`valid
      ensures Sized()
      ensures r == 0 ==> inode == old(inode) && refs == old(refs) && valid == old(valid)
      ensures r == 0 ==> forall i :: 1 <= i < |inode| ==> !inode[i].kind.FREE?
      ensures r != 0 ==> r < |old(inode)| == |old(refs)| && FirstInode(old(inode), r)
      ensures r != 0 ==> inode == old(inode)[r := Inode(kind, 0, [])]
      ensures r != 0 ==> refs == old(refs)[r := old(refs)[r] + 1]
      ensures r != 0 ==> valid == if old(refs)[r] == 0 then old(valid)[r := false] else old(valid)
    {
      r := 1;
      while r < |inode|
        invariant 1 <= r && forall i :: 1 <= i < r && i < |inode| ==> !inode[i].kind.FREE?
      {
        if inode[r].kind.FREE? {
          inode := inode[r := Inode(kind, 0, [])];
          Iget(r);
          return;
        }
        r := r + 1;
      }
      return 0;
    }

    /** fs.c:552-575: the first entry with this name, and a reference to its inode. */
    method Dirlookup(d: nat, name: string) returns (s: Option<nat>)
      requires Sized() && d < |inode|
      requires forall k :: 0 <= k < |inode[d].entries| ==> inode[d].entries[k].inum < |inode|
      modifies this`refs, this`valid
      ensures Sized()
      ensures s.None? ==> refs == old(refs) && valid == old(valid)
      ensures s.None? ==> Absent(inode[d].entries, name)
      ensures s.Some? ==> Has(inode[d].entries, s.value, name)
      ensures s.Some? ==> var c := inode[d].entries[s.value].inum;
                && 0 < c < |inode| == |old(refs)| == |old(valid)| && refs == old(refs)[c := old(refs)[c] + 1]
                && valid == if old(refs)[c] == 0 then old(valid)[c := false] else old(valid)
    {
      var k := 0;
      while k < |inode[d].entries|
        invariant k <= |inode[d].entries|
        invariant forall j :: 0 <= j < k && inode[d].entries[j].inum != 0 ==> inode[d].entries[j].name != name
      {
        var de := inode[d].entries[k];
        if de.inum != 0 && de.name == name {
          Iget(de.inum);
          return Some(k);
        }
        k := k + 1;
      }
      return None;
    }

    /** Nothing that directory `d` names is about to be freed. */
    predicate Targets(d: nat)
      reads this
    {
      d < |inode| && forall k :: 0 <= k < |inode[d].entries| ==>
        var c := inode[d].entries[k].inum; c < |inode| && (c != 0 ==> inode[c].nlink > 0)
    }

    /** fs.c:580-606.  The name is new and there is room, or nothing happens; `full` says that
        writei fails when the directory has to grow, the only case in which it can:
        DirFile.WriteEntry. */
    method Dirlink(d: nat, name: string, c: nat, full: bool) returns (ok: bool, ghost s: nat)
      requires Sized() && d < |inode| && Targets(d)
      modifies this`inode, this`refs, this`valid
      ensures Sized() && refs == old(refs)
      ensures ok <==> Absent(old(inode)[d].entries, name) && Room(old(inode)[d].entries, full)
      ensures ok ==> First(old(inode)[d].entries, s) && inode == Enter(old(inode), d, s, Dirent(c, name))
      ensures !ok ==> inode == old(inode)
      ensures forall i :: 0 <= i < |valid| && old(refs)[i] > 0 ==> valid[i] == old(valid)[i]
    {
      s := 0;
      var found := Dirlookup(d, name);
      if found.Some? {
        var c0 := inode[d].entries[found.value].inum;
        Iput(c0);
        assert refs == old(refs);
        return false, 0;
      }
      var k := 0;
      while k < |inode[d].entries| && inode[d].entries[k].inum != 0
        invariant k <= |inode[d].entries| && forall j :: 0 <= j < k ==> inode[d].entries[j].inum != 0
      {
        k := k + 1;
      }
      s := k;
      if k == |inode[d].entries| {
        if full {
          return false, k;
        }
        inode := inode[d := inode[d].(entries := inode[d].entries + [Dirent(c, name)])];
      } else {
        inode := inode[d := inode[d].(entries := inode[d].entries[k := Dirent(c, name)])];
      }
      ok := true;
    }

    /** sysfile.c:173-186. */
    method Isdirempty(d: nat) returns (r: bool)
      requires d < |inode|
      ensures r <==> Empty(inode[d].entries)
    {
      var k := 2;
      while k < |inode[d].entries|
        invariant 2 <= k && forall j :: 2 <= j < k && j < |inode[d].entries| ==> inode[d].entries[j].inum == 0
      {
        if inode[d].entries[k].inum != 0 {
          return false;
        }
        k := k + 1;
      }
      return true;
    }

    /** Everything that a live directory names has a link. */
    lemma LiveTargets(d: nat)
      requires Inv(inode) && d < |inode| && Live(inode[d])
      ensures Targets(d)
    {
      forall k | 0 <= k < |inode[d].entries|
        ensures var c := inode[d].entries[k].inum; c < |inode| && (c != 0 ==> inode[c].nlink > 0)
      {
        NamedHasLink(inode, d, k);
      }
    }

    /** A reference that was held and valid before still is. */
    predicate StillValid(refs0: seq<nat>, valid0: seq<bool>)
      reads this
    {
      |refs0| == |valid0| == |valid| && forall i :: 0 <= i < |valid| && refs0[i] > 0 && valid0[i] ==> valid[i]
    }

    /** The references and locks around sys_link's dirlink. */
    method LinkLocked(dp: nat, name: string, ip: nat, full: bool) returns (ok: bool, ghost s: nat)
      requires Sized() && dp < |inode| && Targets(dp) && inode[dp].nlink > 0 && inode[dp].kind.DIR?
      modifies this`inode, this`refs, this`valid
      ensures Sized() && refs == old(refs) && StillValid(old(refs), old(valid))
      ensures ok <==> Absent(old(inode)[dp].entries, name) && Room(old(inode)[dp].entries, full)
      ensures ok ==> First(old(inode)[dp].entries, s) && inode == Enter(old(inode), dp, s, Dirent(ip, name))
      ensures !ok ==> inode == old(inode)
    {
      Iget(dp);
      Ilock(dp);
      ok, s := Dirlink(dp, name, ip, full);
      Iput(dp);
      assert refs == old(refs);
    }

    /** sys_link's middle part: the new name, in the directory that nameiparent found.  The link
        has been counted already: `t` is the table before that. */
    method LinkInto(dp: nat, name: string, ip: nat, full: bool, ghost t: Table) returns (ok: bool, ghost s: nat)
      requires Sized() && Inv(t) && dp < |t| && Live(t[dp]) && 0 < ip < |t| && !t[ip].kind.DIR? && !t[ip].kind.FREE?
      requires inode == t[ip := t[ip].(nlink := t[ip].nlink + 1)]
      modifies this`inode, this`refs, this`valid
      ensures Sized() && refs == old(refs) && StillValid(old(refs), old(valid))
      ensures ok <==> Absent(t[dp].entries, name) && Room(t[dp].entries, full)
      ensures ok ==> First(t[dp].entries, s) && NewName(name) && inode == AddName(t, dp, s, name, ip)
      ensures !ok ==> inode == old(inode)
    {
      TargetsKept(t, dp, ip);
      assert inode[dp] == t[dp];
      ok, s := LinkLocked(dp, name, ip, full);
      if ok {
        DotsTaken(t, dp, name);
        LinkThenEnter(t, dp, s, name, ip);
      }
    }

    lemma TargetsKept(t: Table, d: nat, ip: nat)
      requires Inv(t) && d < |t| && Live(t[d]) && ip < |t| && inode == t[ip := t[ip].(nlink := t[ip].nlink + 1)]
      ensures Targets(d)
    {
      forall k | 0 <= k < |t[d].entries|
        ensures t[d].entries[k].inum < |t| && (t[d].entries[k].inum != 0 ==> t[t[d].entries[k].inum].nlink > 0)
      {
        NamedHasLink(t, d, k);
      }
    }

    /** A new name and link change nothing about who holds what. */
    lemma HeldLinked(t: Table, d: nat, s: nat, name: string, c: nat, refs0: seq<nat>, valid0: seq<bool>)
      requires HeldBy(t, refs0, valid0) && d < |t| && Live(t[d]) && s <= |t[d].entries| && c < |t| && !t[c].kind.FREE?
      ensures HeldBy(AddName(t, d, s, name, c), refs0, valid0)
    {
    }

    /** sysfile.c:123-170.  `found` and `parent` are what namei and nameiparent return. */
    method SysLink(found: Option<nat>, parent: Option<nat>, name: string, full: bool) returns (ok: bool, ghost s: nat)
      requires Good()
      requires found.Some? ==> found.value < |inode| && !inode[found.value].kind.FREE?
      requires found.Some? && inode[found.value].nlink == 0 ==> inode[found.value].kind.DIR?
      requires parent.Some? ==> parent.value < |inode| && Live(inode[parent.value])
      modifies this`inode, this`refs, this`valid
      ensures Good() && refs == old(refs)
      ensures !ok ==> inode == old(inode)
      ensures ok <==> found.Some? && parent.Some? && CanLink(old(inode), parent.value, name, found.value, full)
      ensures ok ==> First(old(inode)[parent.value].entries, s) && NewName(name)
      ensures ok ==> inode == AddName(old(inode), parent.value, s, name, found.value)
    {
      s := 0;
      if found.None? {
        return false, 0;
      }
      ghost var t, refs0, valid0 := inode, refs, valid;
      var ip := found.value;
      assert HeldOk(ip);
      HeldFacts();
      Iget(ip);
      Ilock(ip);
      if inode[ip].kind.DIR? {
        UnnamedIfGood(ip);
        Iput(ip);
        assert refs == refs0;
        HeldAgain(refs0, valid0);
        return false, 0;
      }
      inode := inode[ip := inode[ip].(nlink := inode[ip].nlink + 1)];
      ok := false;
      if parent.Some? {
        ok, s := LinkInto(parent.value, name, ip, full, t);
      }
      if ok {
        AddNameInv(t, parent.value, s, name, ip);
        HeldLinked(t, parent.value, s, name, ip, refs0, valid0);
      } else {
        inode := inode[ip := inode[ip].(nlink := inode[ip].nlink - 1)];
        assert inode == t;
      }
      Iput(ip);
      assert refs == refs0;
      HeldAgain(refs0, valid0);
    }

    predicate HeldBy(t: Table, refs0: seq<nat>, valid0: seq<bool>)
    {
      |t| == |refs0| == |valid0| && forall i :: 0 <= i < |t| ==>
        && (t[i].kind.FREE? ==> t[i] == Inode(FREE, 0, []) && refs0[i] == 0)
        && (!t[i].kind.FREE? && t[i].nlink == 0 ==> refs0[i] > 0 && valid0[i])
    }

    lemma HeldFacts()
      requires Good()
      ensures HeldBy(inode, refs, valid)
    {
      forall i | 0 <= i < |inode|
        ensures inode[i].kind.FREE? ==> inode[i] == Inode(FREE, 0, []) && refs[i] == 0
        ensures !inode[i].kind.FREE? && inode[i].nlink == 0 ==> refs[i] > 0 && valid[i]
      {
        assert HeldOk(i);
      }
    }

    /** After an operation that has given back its references. */
    lemma HeldAgain(refs0: seq<nat>, valid0: seq<bool>)
      requires Sized() && refs == refs0 && HeldBy(inode, refs0, valid0) && StillValid(refs0, valid0)
      ensures forall i: nat :: HeldOk(i)
    {
    }

    /** sys_unlink's first half: the entry, the link of "..", and the directory's reference.  The
        entry lies inside the directory, so writei overwrites it without a new block and is never
        short: DirFile.WriteEntry. */
    method Unname(dp: nat, s: nat, ip: nat)
      requires Sized() && Inv(inode) && Droppable(inode, dp, s) && ip == inode[dp].entries[s].inum && refs[dp] > 0
      modifies this`inode, this`refs, this`valid
      ensures Sized() && refs == old(refs)[dp := old(refs)[dp] - 1] && valid == old(valid)
      ensures inode == HalfUnlinked(old(inode), dp, s)
    {
      ghost var t := inode;
      UnlinkedInv(t, dp, s);
      inode := inode[dp := inode[dp].(entries := inode[dp].entries[s := UNUSED])];
      if inode[ip].kind.DIR? {
        inode := inode[dp := inode[dp].(nlink := inode[dp].nlink - 1)];
      }
      assert inode == HalfUnlinked(t, dp, s);
      Iput(dp);
    }

    /** sys_unlink's last part: the entry, the links, and both references. */
    method Remove(dp: nat, s: nat, ip: nat)
      requires Sized() && Inv(inode) && Droppable(inode, dp, s) && ip == inode[dp].entries[s].inum
      requires refs[dp] > 0 && refs[ip] > 0
      modifies this`inode, this`refs, this`valid
      ensures Sized() && refs == old(refs)[dp := old(refs)[dp] - 1][ip := old(refs)[ip] - 1]
      ensures inode == AfterUnlink(old(inode), dp, s, old(refs)[ip] == 1 && old(valid)[ip]) && Inv(inode)
      ensures |valid| == |old(valid)| && forall i :: 0 <= i < |valid| && i != ip ==> valid[i] == old(valid)[i]
      ensures inode[ip].kind.FREE? || valid[ip] == old(valid)[ip]
    {
      ghost var t := inode;
      UnlinkedInv(t, dp, s);
      Unname(dp, s, ip);
      inode := inode[ip := inode[ip].(nlink := inode[ip].nlink - 1)];
      assert inode == Unlinked(t, dp, s);
      UnnamedIfGood(ip);
      Iput(ip);
    }

    /** Who holds what after sys_unlink, which has locked the inode that it unlinks. */
    lemma HeldAfterUnlink(t: Table, d: nat, s: nat, refs0: seq<nat>, valid0: seq<bool>, valid1: seq<bool>)
      requires Inv(t) && Droppable(t, d, s) && HeldBy(t, refs0, valid0) && |valid1| == |valid0|
      requires forall i :: 0 <= i < |valid1| && refs0[i] > 0 && valid0[i] ==> valid1[i]
      requires refs0[t[d].entries[s].inum] > 0 ==> valid1[t[d].entries[s].inum]
      ensures HeldBy(AfterUnlink(t, d, s, refs0[t[d].entries[s].inum] == 0), refs0, valid1)
    {
      if t[t[d].entries[s].inum].kind.DIR? { DropDirFacts(t, d, s); }
    }

    lemma OneVictim(dp: nat, s: nat, name: string)
      requires Inv(inode) && dp < |inode| && Live(inode[dp]) && NewName(name) && Has(inode[dp].entries, s, name)
      ensures CanUnlink(inode, dp, name) <==> Removable(inode, inode[dp].entries[s].inum)
    {
      if CanUnlink(inode, dp, name) {
        var k: nat :| Has(inode[dp].entries, k, name) && Removable(inode, inode[dp].entries[k].inum);
        NameIsOne(inode, dp, s, k, name);
      }
    }

    /** sys_unlink's tests: a name other than the dots, found in `dp`, of a file or of an empty
        directory; then its inode is referenced and locked. */
    method FindVictim(dp: nat, name: string) returns (s: Option<nat>)
      requires Sized() && Inv(inode) && dp < |inode| && Live(inode[dp]) && HeldBy(inode, refs, valid)
      modifies this`inode, this`refs, this`valid
      ensures Sized() && StillValid(old(refs), old(valid)) && inode == old(inode)
      ensures s.Some? <==> CanUnlink(inode, dp, name)
      ensures s.None? ==> refs == old(refs)
      ensures s.Some? ==> Droppable(inode, dp, s.value) && Has(inode[dp].entries, s.value, name)
      ensures s.Some? ==> var ip := inode[dp].entries[s.value].inum;
                ip < |old(refs)| == |inode| && refs == old(refs)[ip := old(refs)[ip] + 1] && valid[ip]
    {
      if name == "." || name == ".." {
        return None;
      }
      LiveTargets(dp);
      s := Dirlookup(dp, name);
      if s.None? {
        return;
      }
      var ip := inode[dp].entries[s.value].inum;
      FoundBeyondDots(inode, dp, s.value);
      OneVictim(dp, s.value, name);
      Ilock(ip);
      assert inode[ip].nlink >= 1;   // no "unlink: nlink < 1"
      if inode[ip].kind.DIR? {
        var empty := Isdirempty(ip);
        if !empty {
          Iput(ip);
          assert refs == old(refs);
          s := None;
        }
      }
    }

    /** One reference more, to a linked inode, changes nothing about who holds what. */
    lemma HeldMore(t: Table, refs0: seq<nat>, valid0: seq<bool>)
      requires Sized() && inode == t && HeldBy(t, refs0, valid0) && StillValid(refs0, valid0)
      requires forall i :: 0 <= i < |refs| && refs[i] != refs0[i] ==> t[i].nlink > 0 && !t[i].kind.FREE?
      ensures HeldBy(t, refs, valid)
    {
    }

    /** A reference to the directory that nameiparent has found, and its lock. */
    method LockParent(dp: nat)
      requires Good() && dp < |inode| && Live(inode[dp])
      modifies this`refs, this`valid
      ensures Sized() && |old(refs)| == |inode| && refs == old(refs)[dp := old(refs)[dp] + 1]
      ensures StillValid(old(refs), old(valid))
      ensures HeldBy(inode, old(refs), old(valid)) && HeldBy(inode, refs, valid)
    {
      ghost var refs0, valid0 := refs, valid;
      HeldFacts();
      Iget(dp);
      Ilock(dp);
      HeldMore(inode, refs0, valid0);
    }

    /** sys_unlink's success: `t`, `refs0` and `valid0` are as before the call. */
    method RemoveFound(dp: nat, s: nat, ip: nat, ghost t: Table, ghost refs0: seq<nat>, ghost valid0: seq<bool>)
      requires Sized() && Inv(t) && inode == t && Droppable(t, dp, s) && ip == t[dp].entries[s].inum
      requires HeldBy(t, refs0, valid0) && StillValid(refs0, valid0) && valid[ip]
      requires refs == refs0[dp := refs0[dp] + 1][ip := refs0[ip] + 1]
      modifies this`inode, this`refs, this`valid
      ensures Good() && refs == refs0 && inode == AfterUnlink(t, dp, s, refs0[ip] == 0)
    {
      Remove(dp, s, ip);
      assert refs == refs0;
      HeldAfterUnlink(t, dp, s, refs0, valid0, valid);
    }

    /** sysfile.c:188-243.  Its two panics are unreachable; the inode is freed at once when
        nobody else refers to it. */
    method SysUnlink(parent: Option<nat>, name: string) returns (ok: bool, ghost s: nat)
      requires Good() && (parent.Some? ==> parent.value < |inode| && Live(inode[parent.value]))
      modifies this`inode, this`refs, this`valid
      ensures Good() && refs == old(refs)
      ensures !ok ==> inode == old(inode)
      ensures ok <==> parent.Some? && CanUnlink(old(inode), parent.value, name)
      ensures ok ==> Droppable(old(inode), parent.value, s) && Has(old(inode)[parent.value].entries, s, name)
      ensures ok ==> var last := old(refs)[old(inode)[parent.value].entries[s].inum] == 0;
                     inode == AfterUnlink(old(inode), parent.value, s, last)
    {
      s := 0;
      if parent.None? {
        return false, 0;
      }
      ghost var t, refs0, valid0 := inode, refs, valid;
      var dp := parent.value;
      LockParent(dp);
      var found := FindVictim(dp, name);
      if found.None? {
        Iput(dp);
        assert refs == refs0;
        HeldAgain(refs0, valid0);
        return false, 0;
      }
      s := found.value;
      var ip := inode[dp].entries[found.value].inum;
      RemoveFound(dp, found.value, ip, t, refs0, valid0);
      ok := true;
    }

    /** create's two entries of a new directory. */
    method AddDots(c: nat, dp: nat, full: seq<bool>, ghost t: Table) returns (ok: bool)
      requires Sized() && 0 < c < |t| && dp < |t| && c != dp && |full| == 3 && inode == t[c := Inode(DIR, 1, [])]
      modifies this`inode, this`refs, this`valid
      ensures Sized() && refs == old(refs) && StillValid(old(refs), old(valid))
      ensures ok <==> !full[0] && !full[1]
      ensures ok ==> inode == t[c := Inode(DIR, 1, [Dirent(c, "."), Dirent(dp, "..")])]
      ensures !ok ==> |inode| == |t| && inode[c].kind.DIR? && inode == t[c := inode[c]]
    {
      ok := AddDot(c, Dirent(c, "."), [], full[0], t);
      if ok {
        assert |".."| != |"."| && [] + [Dirent(c, ".")] == [Dirent(c, ".")];
        ok := AddDot(c, Dirent(dp, ".."), [Dirent(c, ".")], full[1], t);
        assert [Dirent(c, ".")] + [Dirent(dp, "..")] == [Dirent(c, "."), Dirent(dp, "..")];
      }
    }

    /** One of them, after `es`. */
    method AddDot(c: nat, e: Dirent, ghost es: seq<Dirent>, full: bool, ghost t: Table) returns (ok: bool)
      requires Sized() && c < |t| && inode == t[c := Inode(DIR, 1, es)] && |es| <= 1
      requires forall k :: 0 <= k < |es| ==> es[k] == Dirent(c, ".") && c != 0 && e.name != "."
      modifies this`inode, this`refs, this`valid
      ensures Sized() && refs == old(refs) && StillValid(old(refs), old(valid))
      ensures ok <==> !full
      ensures inode == t[c := Inode(DIR, 1, if ok then es + [e] else es)]
    {
      assert inode[c].entries == es && Absent(es, e.name);
      ghost var at;
      ok, at := Dirlink(c, e.name, e.inum, full);
    }

    /** create's middle part: a new inode `c` with one link, and its name in `dp`.  `t` is the
        table before ialloc. */
    method Furnish(dp: nat, name: string, c: nat, kind: Kind, full: seq<bool>, ghost t: Table)
      returns (ok: bool, ghost s: nat)
      requires Sized() && Inv(t) && dp < |t| && Live(t[dp]) && 0 < c < |t| && t[c].kind.FREE? && |full| == 3
      requires NewName(name) && Absent(t[dp].entries, name) && !kind.FREE? && inode == t[c := Inode(kind, 0, [])]
      modifies this`inode, this`refs, this`valid
      ensures Sized() && refs == old(refs) && StillValid(old(refs), old(valid))
      ensures ok <==> CanMake(t, dp, name, kind, full)
      ensures ok ==> First(t[dp].entries, s) && inode == Created(t, dp, s, name, c, kind)
      ensures !ok ==> |inode| == |t| && inode[c].kind == kind && inode == t[c := inode[c]]
    {
      s := 0;
      assert c != dp;
      inode := inode[c := inode[c].(nlink := 1)];
      assert inode == t[c := Inode(kind, 1, [])];
      if kind.DIR? {
        ok := AddDots(c, dp, full, t);
        if !ok {
          return;
        }
      }
      NewTargets(t, dp, c);
      ghost var n := inode[c];
      ok, s := Dirlink(dp, name, c, full[2]);
      if ok {
        EnterAround(t, dp, s, Dirent(c, name), c, n);
        if kind.DIR? {
          inode := inode[dp := inode[dp].(nlink := inode[dp].nlink + 1)];
        }
      }
    }

    lemma EnterAround(t: Table, d: nat, s: nat, e: Dirent, c: nat, n: Inode)
      requires d < |t| && c < |t| && c != d && s <= |t[d].entries|
      ensures Enter(t[c := n], d, s, e) == Enter(t, d, s, e)[c := n]
    {
    }

    lemma NewTargets(t: Table, d: nat, c: nat)
      requires Inv(t) && d < |t| && Live(t[d]) && 0 < c < |t| == |inode| && c != d && t[c].kind.FREE?
      requires inode == t[c := inode[c]]
      ensures Targets(d)
    {
      forall k | 0 <= k < |t[d].entries|
        ensures t[d].entries[k].inum < |t| && t[d].entries[k].inum != c
        ensures t[d].entries[k].inum != 0 ==> t[t[d].entries[k].inum].nlink > 0
      {
        NamedHasLink(t, d, k);
        assert LinkOk(t, c);
      }
    }

    /** The end of create: what it holds, and what its table is. */
    lemma HeldCreated(t: Table, dp: nat, s: nat, name: string, c: nat, kind: Kind, refs0: seq<nat>, valid0: seq<bool>)
      requires HeldBy(t, refs0, valid0) && dp < |t| && Live(t[dp]) && s <= |t[dp].entries| && 0 < c < |t| && !kind.FREE?
      requires t[c].kind.FREE? && |refs| == |valid| == |t| && StillValid(refs0, valid0)
      requires refs == refs0[c := refs0[c] + 1]
      ensures HeldBy(Created(t, dp, s, name, c, kind), refs, valid)
    {
      assert c != dp;
    }

    /** Who holds what while only references to linked inodes have been added. */
    lemma GoodAgain()
      requires Sized() && Inv(inode) && HeldBy(inode, refs, valid)
      ensures Good()
    {
    }

    /** The case that the name exists: a file or device is opened for T_FILE. */
    method Existing(dp: nat, ip: nat, kind: Kind) returns (r: nat)
      requires Sized() && Inv(inode) && HeldBy(inode, refs, valid) && dp < |inode| && 0 < ip < |inode|
      requires refs[dp] > 0 && inode[dp].nlink > 0 && refs[ip] > 0 && inode[ip].nlink > 0 && !inode[ip].kind.FREE?
      requires dp == ip ==> refs[ip] > 1
      modifies this`inode, this`refs, this`valid
      ensures Good() && inode == old(inode)
      ensures r != 0 <==> kind.FILE? && Openable(inode, ip)
      ensures r != 0 ==> r == ip && refs == old(refs)[dp := old(refs)[dp] - 1]
      ensures r == 0 ==> (dp != ip ==> refs == old(refs)[dp := old(refs)[dp] - 1][ip := old(refs)[ip] - 1])
                         && (dp == ip ==> refs == old(refs)[dp := old(refs)[dp] - 2])
    {
      Iput(dp);
      Ilock(ip);
      if kind.FILE? && (inode[ip].kind.FILE? || inode[ip].kind.DEVICE?) {
        r := ip;
      } else {
        Iput(ip);
        r := 0;
      }
      assert LinkOk(inode, dp) && LinkOk(inode, ip);
      GoodAgain();
    }

    lemma FailedIsUnnamed(t: Table, c: nat)
      requires Inv(t) && c < |t| && t[c].kind.FREE? && t[c].nlink == 0 && |inode| == |t|
      requires inode == t[c := inode[c]] && inode[c].nlink == 0
      ensures Unnamed(c)
    {
      forall d, s | 0 <= d < |inode| && Live(inode[d]) && 0 <= s < |inode[d].entries|
        ensures !Names(inode[d].entries[s], c)
      {
        NoLinksNoNames(t, c, d, s);
      }
    }

    /** create's failure: the new inode loses its link and, with it, its place. */
    method Discard(c: nat, ghost t: Table)
      requires Sized() && Inv(t) && 0 < c < |t| && t[c] == Inode(FREE, 0, []) && |inode| == |t|
      requires inode == t[c := inode[c]]
      requires refs[c] == 1 && valid[c]
      modifies this`inode, this`refs, this`valid
      ensures Sized() && inode == t && refs == old(refs)[c := 0] && valid == old(valid)[c := false]
    {
      inode := inode[c := inode[c].(nlink := 0)];
      FailedIsUnnamed(t, c);
      Iput(c);
    }

    /** The inode that ialloc takes. */
    static predicate FirstInode(t: Table, r: nat) {
      0 < r < |t| && t[r].kind.FREE? && forall i :: 1 <= i < r ==> !t[i].kind.FREE?
    }

    /** The case that the name is new, up to the last iput. */
    method Make(dp: nat, name: string, kind: Kind, full: seq<bool>) returns (r: nat, ghost s: nat)
      requires Sized() && Inv(inode) && HeldBy(inode, refs, valid) && dp < |inode| && Live(inode[dp]) && refs[dp] > 0
      requires NewName(name) && Absent(inode[dp].entries, name) && !kind.FREE? && |full| == 3
      modifies this`inode, this`refs, this`valid
      ensures Sized() && Inv(inode) && HeldBy(inode, refs, valid) && |inode| == |old(inode)|
      ensures r != 0 <==> CanMake(old(inode), dp, name, kind, full)
      ensures r == 0 ==> inode == old(inode) && refs == old(refs)
      ensures r != 0 ==> r < |inode| && FirstInode(old(inode), r) && dp != r && refs == old(refs)[r := old(refs)[r] + 1]
      ensures r != 0 ==> First(old(inode)[dp].entries, s) && inode == Created(old(inode), dp, s, name, r, kind)
    {
      ghost var t, refs0, valid0 := inode, refs, valid;
      s := 0;
      r := Ialloc(kind);
      if r != 0 {
        Ilock(r);
        assert LinkOk(t, r);
        var ok;
        ok, s := Furnish(dp, name, r, kind, full, t);
        if ok {
          HeldCreated(t, dp, s, name, r, kind, refs0, valid0);
          CreatedInv(t, dp, s, name, r, kind);
        } else {
          Discard(r, t);
          assert refs == refs0;
          r := 0;
        }
      }
    }

    /** The case that the name is new. */
    method Fresh(dp: nat, name: string, kind: Kind, full: seq<bool>) returns (r: nat, ghost s: nat)
      requires Sized() && Inv(inode) && HeldBy(inode, refs, valid) && dp < |inode| && Live(inode[dp]) && refs[dp] > 0
      requires NewName(name) && Absent(inode[dp].entries, name) && !kind.FREE? && |full| == 3
      modifies this`inode, this`refs, this`valid
      ensures Good()
      ensures r != 0 <==> CanMake(old(inode), dp, name, kind, full)
      ensures r == 0 ==> inode == old(inode) && refs == old(refs)[dp := old(refs)[dp] - 1]
      ensures r != 0 ==> r < |inode| == |old(inode)| && FirstInode(old(inode), r) && dp != r
      ensures r != 0 ==> refs == old(refs)[dp := old(refs)[dp] - 1][r := old(refs)[r] + 1]
      ensures r != 0 ==> First(old(inode)[dp].entries, s) && inode == Created(old(inode), dp, s, name, r, kind)
    {
      r, s := Make(dp, name, kind, full);
      assert inode[dp].nlink > 0;
      Iput(dp);
      GoodAgain();
    }

    lemma OneTarget(dp: nat, s: nat, name: string, kind: Kind)
      requires Inv(inode) && dp < |inode| && Live(inode[dp]) && Has(inode[dp].entries, s, name)
      ensures CanOpen(inode, dp, name, kind) <==> kind.FILE? && Openable(inode, inode[dp].entries[s].inum)
    {
      if CanOpen(inode, dp, name, kind) {
        var k: nat :| Has(inode[dp].entries, k, name) && Openable(inode, inode[dp].entries[k].inum);
        NameIsOne(inode, dp, s, k, name);
      }
    }

    /** create once it has locked the directory. */
    method CreateIn(dp: nat, name: string, kind: Kind, full: seq<bool>) returns (r: nat, ghost s: nat)
      requires Sized() && Inv(inode) && HeldBy(inode, refs, valid) && dp < |inode| && Live(inode[dp]) && refs[dp] > 0
      requires !kind.FREE? && |full| == 3
      modifies this`inode, this`refs, this`valid
      ensures Good() && |inode| == |old(inode)| == |old(refs)|
      ensures r == 0 ==> inode == old(inode) && refs == old(refs)[dp := old(refs)[dp] - 1]
      ensures r != 0 <==> CanCreate(old(inode), dp, name, kind, full)
      ensures r != 0 ==> r < |inode| && CreateOk(old(inode), dp, s, name, r, kind)
      ensures r != 0 ==> refs == Moved(old(refs), dp, r)
    {
      ghost var t, refs0, valid0 := inode, refs, valid;
      s := 0;
      LiveTargets(dp);
      var found := Dirlookup(dp, name);
      if found.Some? {
        var ip := inode[dp].entries[found.value].inum;
        FoundIsLinked(t, dp, found.value);
        HeldMore(t, refs0, valid0);
        s := found.value;
        OneTarget(dp, s, name, kind);
        r := Existing(dp, ip, kind);
      } else {
        DotsTaken(t, dp, name);
        r, s := Fresh(dp, name, kind, full);
      }
    }

    /** One reference less to `a` and one more to `b`. */
    static function Moved(refs0: seq<nat>, a: nat, b: nat): seq<nat>
      requires a < |refs0| && b < |refs0| && refs0[a] > 0
    {
      var less := refs0[a := refs0[a] - 1];
      less[b := less[b] + 1]
    }

    /** create returned `r`: the file that has the name, or a new inode that gets it. */
    predicate CreateOk(t: Table, dp: nat, s: nat, name: string, r: nat, kind: Kind)
      reads this
    {
      && r < |t| && dp < |t|
      && if t[r].kind.FREE? then
           && NewName(name) && Absent(t[dp].entries, name) && FirstInode(t, r) && First(t[dp].entries, s)
           && inode == Created(t, dp, s, name, r, kind)
         else
           inode == t && kind.FILE? && Openable(t, r) && Has(t[dp].entries, s, name) && t[dp].entries[s].inum == r
    }

    /** sysfile.c:245-302.  It returns the file that has the name, a new inode that gets it, or 0
        with nothing changed.  `full` says which dirlinks find the disk full. */
    method Create(parent: Option<nat>, name: string, kind: Kind, full: seq<bool>) returns (r: nat, ghost s: nat)
      requires Good() && (parent.Some? ==> parent.value < |inode| && Live(inode[parent.value]))
      requires !kind.FREE? && |full| == 3
      modifies this`inode, this`refs, this`valid
      ensures Good()
      ensures r == 0 ==> inode == old(inode) && refs == old(refs)
      ensures r != 0 <==> parent.Some? && CanCreate(old(inode), parent.value, name, kind, full)
      ensures r != 0 ==> CreateOk(old(inode), parent.value, s, name, r, kind)
      ensures r != 0 ==> r < |old(refs)| && refs == old(refs)[r := old(refs)[r] + 1]
    {
      s := 0;
      if parent.None? {
        return 0, 0;
      }
      ghost var refs0 := refs;
      LockParent(parent.value);
      r, s := CreateIn(parent.value, name, kind, full);
      assert refs0[parent.value := refs0[parent.value] + 1][parent.value := refs0[parent.value]] == refs0;
    }
  }
}