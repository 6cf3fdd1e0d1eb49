/** fs.c: skipelem and namex, path names and their resolution. */
module Path {
  import opened Common

  const DIRSIZ := 14
  const ROOTINO: nat := 1

  // ----- The elements of a path -----

  /** The number of slashes that `s` begins with. */
  function Slashes(s: string): (n: nat)
    ensures n <= |s| && (n < |s| ==> s[n] != '/') && forall k :: 0 <= k < n ==> s[k] == '/'
  {
    if s != [] && s[0] == '/' then Slashes(s[1..]) + 1 else 0
  }

  /** The number of characters before the first slash. */
  function Word(s: string): (n: nat)
    ensures n <= |s| && (n < |s| ==> s[n] == '/') && forall k :: 0 <= k < n ==> s[k] != '/'
  {
    if s != [] && s[0] != '/' then Word(s[1..]) + 1 else 0
  }

  /** A name as a directory entry holds it. */
  function Short(name: string): string {
    if |name| > DIRSIZ then name[..DIRSIZ] else name
  }

  /** The path without its leading slashes. */
  function Body(path: string): string {
    path[Slashes(path)..]
  }

  /** What follows the first word. */
  function Tail(s: string): string {
    s[Word(s)..]
  }

  /** The names between the slashes, in order. */
  function Elements(path: string): seq<string>
    decreases |path|
  {
    var s := Body(path);
    if s == [] then [] else [Short(s[..Word(s)])] + Elements(Tail(s))
  }

  // ----- Writing a path and reading it back -----

  /** A name, and the slashes that follow it. */
  datatype Part = Part(name: string, slashes: nat)

  function Bars(n: nat): (s: string)
    ensures |s| == n && forall k :: 0 <= k < n ==> s[k] == '/'
  {
    seq(n, _ => '/')
  }

  function Written(parts: seq<Part>): string {
    if parts == [] then "" else parts[0].name + (Bars(parts[0].slashes) + Written(parts[1..]))
  }

  /** Names without slashes, with at least one slash after each but the last. */
  predicate Proper(parts: seq<Part>) {
    forall k :: 0 <= k < |parts| ==>
      && parts[k].name != "" && '/' !in parts[k].name && (k < |parts| - 1 ==> parts[k].slashes > 0)
  }

  function Named(parts: seq<Part>): seq<string> {
    if parts == [] then [] else [Short(parts[0].name)] + Named(parts[1..])
  }

  lemma {:induction false} SlashesAre(s: string, n: nat)
    requires n <= |s| && (forall k :: 0 <= k < n ==> s[k] == '/') && (n < |s| ==> s[n] != '/')
    ensures Slashes(s) == n
  {
    if n > 0 { SlashesAre(s[1..], n - 1); }
  }

  lemma {:induction false} WordIs(s: string, n: nat)
    requires n <= |s| && (forall k :: 0 <= k < n ==> s[k] != '/') && (n < |s| ==> s[n] == '/')
    ensures Word(s) == n
  {
    if n > 0 { WordIs(s[1..], n - 1); }
  }

  lemma BodyOnce(path: string)
    ensures Body(Body(path)) == Body(path) && Elements(path) == Elements(Body(path))
  {
    SlashesAre(Body(path), 0);
  }

  lemma BodyOf(lead: nat, s: string)
    requires s == "" || s[0] != '/'
    ensures Body(Bars(lead) + s) == s
  {
    SlashesAre(Bars(lead) + s, lead);
  }

  lemma WordOf(name: string, tail: string)
    requires '/' !in name && (tail == "" || tail[0] == '/')
    ensures var s := name + tail; s[..Word(s)] == name && Tail(s) == tail
  {
    var s := name + tail;
    forall k | 0 <= k < |name| ensures s[k] != '/' { assert s[k] in name; }
    WordIs(s, |name|);
  }

  lemma ElementsStep(lead: nat, name: string, tail: string)
    requires name != "" && name[0] != '/' && '/' !in name && (tail == "" || tail[0] == '/')
    ensures Elements(Bars(lead) + (name + tail)) == [Short(name)] + Elements(tail)
  {
    BodyOf(lead, name + tail);
    WordOf(name, tail);
  }

  /** `name` is the beginning of `whole`, all of it up to 14 characters. */
  predicate CutTo14(whole: string, name: string) {
    name <= whole && |name| == if |whole| < 14 then |whole| else 14
  }

  lemma {:induction false} NamedAre(parts: seq<Part>)
    ensures |Named(parts)| == |parts|
    ensures forall k :: 0 <= k < |parts| ==> CutTo14(parts[k].name, Named(parts)[k])
  {
    if parts != [] {
      NamedAre(parts[1..]);
      forall k | 0 <= k < |parts| ensures CutTo14(parts[k].name, Named(parts)[k]) {
        if k > 0 { assert CutTo14(parts[1..][k - 1].name, Named(parts[1..])[k - 1]); }
      }
    }
  }

  /** However many slashes separate and surround them, the names of a path are read back,
      each cut to 14 characters. */
  lemma ReadBack(lead: nat, parts: seq<Part>)
    requires Proper(parts)
    ensures var es := Elements(Bars(lead) + Written(parts));
      |es| == |parts| && forall k :: 0 <= k < |parts| ==> CutTo14(parts[k].name, es[k])
  {
    ReadNamed(lead, parts);
    NamedAre(parts);
  }

  lemma {:induction false} ReadNamed(lead: nat, parts: seq<Part>)
    requires Proper(parts)
    ensures Elements(Bars(lead) + Written(parts)) == Named(parts)
    decreases |parts|
  {
    if parts == [] {
      assert Bars(lead) + "" == Bars(lead);
      BodyOf(lead, "");
    } else {
      var p, rest := parts[0], parts[1..];
      var tail := Bars(p.slashes) + Written(rest);
      TailStarts(parts);
      ElementsStep(lead, p.name, tail);
      ProperRest(parts);
      ReadNamed(p.slashes, rest);
    }
  }

  lemma TailStarts(parts: seq<Part>)
    requires Proper(parts) && parts != []
    ensures var tail := Bars(parts[0].slashes) + Written(parts[1..]); tail == "" || tail[0] == '/'
    ensures '/' !in parts[0].name && parts[0].name[0] != '/'
  {
    assert parts[0].name[0] in parts[0].name;
    if |parts| == 1 { assert Written(parts[1..]) == ""; }
  }

  lemma ProperRest(parts: seq<Part>)
    requires Proper(parts) && parts != []
    ensures Proper(parts[1..])
  {
    forall k | 0 <= k < |parts| - 1
      ensures parts[1..][k].name != "" && '/' !in parts[1..][k].name && (k < |parts| - 2 ==> parts[1..][k].slashes > 0)
    {
      assert parts[1..][k] == parts[k + 1];
    }
  }

  // ----- Resolution -----

  /** An inode as path lookup sees it; `entries` are those of a directory. */
  datatype Node = Node(dir: bool, entries: map<string, nat>)

  type Tree = map<nat, Node>

  function Lookup(t: Tree, d: nat, name: string): Option<nat> {
    if d in t && t[d].dir && name in t[d].entries then Some(t[d].entries[name]) else None
  }

  /** Where a list of names leads from `d`. */
  function Resolve(t: Tree, d: nat, names: seq<string>): Option<nat> {
    if names == [] then Some(d)
    else
      match Resolve(t, d, names[..|names| - 1])
      case None => None
      case Some(p) => Lookup(t, p, names[|names| - 1])
  }

  lemma {:induction false} ResolveStep(t: Tree, d: nat, name: string, rest: seq<string>)
    ensures Resolve(t, d, [name] + rest) ==
            match Lookup(t, d, name) case None => None case Some(c) => Resolve(t, c, rest)
  {
    var all := [name] + rest;
    if rest == [] {
      assert all[..0] == [];
    } else {
      assert all[..|all| - 1] == [name] + rest[..|rest| - 1];
      ResolveStep(t, d, name, rest[..|rest| - 1]);
    }
  }

  /** What namei and nameiparent promise: the inode of the path, or the directory of its last
      name and that name; nothing for nameiparent when there is no name, or no directory. */
  function Goal(t: Tree, d: nat, names: seq<string>, parent: bool): Option<(nat, string)> {
    if !parent then
      match Resolve(t, d, names) case None => None case Some(c) => Some((c, ""))
    else if names == [] then None
    else
      match Resolve(t, d, names[..|names| - 1])
      case None => None
      case Some(p) => if p in t && t[p].dir then Some((p, names[|names| - 1])) else None
  }

  /** namei is nameiparent and one lookup more. */
  lemma ParentThenName(t: Tree, d: nat, names: seq<string>)
    requires names != []
    ensures Goal(t, d, names, false) ==
            match Goal(t, d, names, true)
            case None => None
            case Some(r) => match Lookup(t, r.0, r.1) case None => None case Some(c) => Some((c, ""))
    ensures Goal(t, d, names, true).Some? ==> Goal(t, d, names, true).value.1 == names[|names| - 1]
  {
  }

  lemma GoalStep(t: Tree, d: nat, name: string, rest: seq<string>, parent: bool)
    requires parent ==> rest != []
    ensures Goal(t, d, [name] + rest, parent) ==
            match Lookup(t, d, name) case None => None case Some(c) => Goal(t, c, rest, parent)
  {
    var all := [name] + rest;
    ResolveStep(t, d, name, rest);
    if parent {
      assert all[..|all| - 1] == [name] + rest[..|rest| - 1];
      ResolveStep(t, d, name, rest[..|rest| - 1]);
    }
  }

  /** skipelem's first and last loop. */
  method SkipSlashes(path: string) returns (rest: string)
    ensures rest == Body(path)
  {
    var i := 0;
    while i < |path| && path[i] == '/'
      invariant i <= |path| && forall k :: 0 <= k < i ==> path[k] == '/'
    {
      i := i + 1;
    }
    SlashesAre(path, i);
    return path[i..];
  }

  /** Its second loop, and the copy of the name. */
  method TakeWord(s: string) returns (name: string, rest: string)
    ensures name == Short(s[..Word(s)]) && rest == Tail(s)
  {
    var len := 0;
    while len < |s| && s[len] != '/'
      invariant len <= |s| && forall k :: 0 <= k < len ==> s[k] != '/'
    {
      len := len + 1;
    }
    WordIs(s, len);
    name := if len >= DIRSIZ then s[..DIRSIZ] else s[..len];
    assert len >= DIRSIZ ==> s[..DIRSIZ] == s[..len][..DIRSIZ];
    rest := s[len..];
  }

  /** fs.c:622-645: the first element and the path after it, without leading slashes. */
  method Skipelem(path: string) returns (r: Option<(string, string)>)
    ensures r.None? <==> Elements(path) == []
    ensures r.Some? ==> Elements(path) == [r.value.0] + Elements(r.value.1) && |r.value.1| < |path|
    ensures r.Some? ==> (r.value.1 == "" <==> Elements(r.value.1) == [])
  {
    var s := SkipSlashes(path);
    if s == "" {
      return None;
    }
    var name, after := TakeWord(s);
    var rest := SkipSlashes(after);
    BodyOnce(after);
    assert s[0] != '/' && Word(s) > 0;
    return Some((name, rest));
  }

  /** A path that names nothing. */
  predicate OnlySlashes(path: string) {
    forall k :: 0 <= k < |path| ==> path[k] == '/'
  }

  lemma OnlySlashesElements(path: string)
    ensures OnlySlashes(path) <==> Elements(path) == []
  {
    if OnlySlashes(path) { SlashesAre(path, |path|); }
  }

  /** fs.c:651-684, from the root or from the current directory. */
  method Namex(t: Tree, path: string, parent: bool, cwd: nat) returns (r: Option<(nat, string)>)
    ensures r == Goal(t, if path != "" && path[0] == '/' then ROOTINO else cwd, Elements(path), parent)
    ensures OnlySlashes(path) ==> r == if parent then None else Some((if path == "" then cwd else 1, ""))
  {
    OnlySlashesElements(path);
    var ip: nat := if path != "" && path[0] == '/' then ROOTINO else cwd;
    ghost var goal := Goal(t, ip, Elements(path), parent);
    var rest := path;
    var next := Skipelem(rest);
    while next.Some?
      invariant goal == Goal(t, ip, Elements(rest), parent)
      invariant next.None? <==> Elements(rest) == []
      invariant next.Some? ==> Elements(rest) == [next.value.0] + Elements(next.value.1) && |next.value.1| < |rest|
      invariant next.Some? ==> (next.value.1 == "" <==> Elements(next.value.1) == [])
      decreases |rest|
    {
      var name := next.value.0;
      rest := next.value.1;
      if !(ip in t && t[ip].dir) {
        LastOrNot(t, ip, name, Elements(rest), parent);
        return None;
      }
      if parent && rest == "" {
        assert ([name] + Elements(rest))[..0] == [];
        return Some((ip, name));
      }
      GoalStep(t, ip, name, Elements(rest), parent);
      if name !in t[ip].entries {
        return None;
      }
      ip := t[ip].entries[name];
      next := Skipelem(rest);
    }
    return if parent then None else Some((ip, ""));
  }

  lemma LastOrNot(t: Tree, d: nat, name: string, rest: seq<string>, parent: bool)
    requires !(d in t && t[d].dir)
    ensures Goal(t, d, [name] + rest, parent) == None
  {
    if parent && rest == [] {
      assert ([name] + rest)[..0] == [];
    } else {
      GoalStep(t, d, name, rest, parent);
    }
  }
}
