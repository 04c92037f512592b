/**
 The tree of `workspaceTree` in src/hooks/useWebContainerSandbox.ts: a flat map of paths becomes
 nested objects, built by walking a pointer and inserting in place.
 */
module WorkspaceTree {
  import opened Wrappers
  import opened JsText

  type Path = seq<string>

  predicate BadPart(part: string) {
    part == "" || part == "." || part == ".." || part == "__proto__" || part == "constructor" || part == "prototype"
  }

  predicate Accepted(path: string) {
    (forall i :: 0 <= i < |path| ==> path[i] != '\\') &&
    (forall k :: 0 <= k < |Split(path, '/')| ==> !BadPart(Split(path, '/')[k]))
  }

  /** An entry of an object: a file, or a directory that is another object. */
  datatype Entry = File(contents: string) | Directory(node: nat)

  /** All objects made so far; object 0 is the tree. */
  type Objects = map<nat, map<string, Entry>>

  // ----- reading the tree -----

  /** The object a path of directories leads to. */
  function NodeAt(objects: Objects, path: Path): Option<nat> {
    if path == [] then Some(0)
    else
      var parent, name := NodeAt(objects, path[..|path| - 1]), path[|path| - 1];
      if parent.None? || parent.value !in objects || name !in objects[parent.value] then None
      else if objects[parent.value][name].Directory? then Some(objects[parent.value][name].node)
      else None
  }

  /** The contents of the file at a path. */
  function FileAt(objects: Objects, path: Path): Option<string> {
    if path == [] then None
    else
      var parent, name := NodeAt(objects, path[..|path| - 1]), path[|path| - 1];
      if parent.None? || parent.value !in objects || name !in objects[parent.value] then None
      else if objects[parent.value][name].File? then Some(objects[parent.value][name].contents)
      else None
  }

  predicate IsDirectory(objects: Objects, path: Path) {
    NodeAt(objects, path).Some?
  }

  // ----- what the tree should hold -----

  predicate ProperPrefix(p: Path, q: Path) {
    p < q
  }

  predicate Prefix(p: Path, q: Path) {
    p <= q
  }

  /** Some entry sits at a proper prefix of the path. */
  predicate Shadowed(entries: seq<(Path, string)>, path: Path) {
    exists k :: 0 <= k < |entries| && ProperPrefix(entries[k].0, path)
  }

  function Given(entries: seq<(Path, string)>, path: Path): Option<string> {
    if entries == [] then None
    else if entries[|entries| - 1].0 == path then Some(entries[|entries| - 1].1)
    else Given(entries[..|entries| - 1], path)
  }

  /** An entry is in the tree unless another one sits at a proper prefix of its path. */
  function Expected(entries: seq<(Path, string)>, path: Path): Option<string> {
    if Shadowed(entries, path) then None else Given(entries, path)
  }

  predicate DistinctPaths(entries: seq<(Path, string)>) {
    forall i, j :: 0 <= i < j < |entries| ==> entries[i].0 != entries[j].0
  }

  // ----- objects form a tree -----

  /** `home` names the path of every object that hangs, or once hung, in the tree. */
  ghost predicate Rooted(objects: Objects, home: map<nat, Path>, next: nat) {
    && 0 in home && home[0] == []
    && (forall n :: n in home ==> n in objects)
    && (forall n :: n in objects ==> n < next)
    && (forall n, name :: n in home && name in objects[n] && objects[n][name].Directory? ==>
          objects[n][name].node in home && home[objects[n][name].node] == home[n] + [name])
    && (forall n, name :: n in objects && n !in home && name in objects[n] && objects[n][name].Directory? ==>
          objects[n][name].node in objects && objects[n][name].node !in home)
  }

  lemma {:induction false} NodeHome(objects: Objects, home: map<nat, Path>, next: nat, path: Path)
    requires Rooted(objects, home, next)
    ensures var n := NodeAt(objects, path); n.Some? ==> n.value in home && home[n.value] == path
  {
    if path != [] {
      var parent, name := path[..|path| - 1], path[|path| - 1];
      NodeHome(objects, home, next, parent);
      assert path == parent + [name];
    }
  }

  /** Changing the entry of one name in one object matters only to paths through it. */
  lemma {:induction false} NodeElsewhere(
    objects: Objects, home: map<nat, Path>, next: nat, n: nat, after: Objects, name: string, path: Path)
    requires Rooted(objects, home, next)
    requires n in home && n in after && forall other :: other in home && other != n ==>
               other in after && after[other] == objects[other]
    requires forall s :: s != name ==>
               (s in after[n] <==> s in objects[n]) && (s in objects[n] ==> after[n][s] == objects[n][s])
    requires !(home[n] + [name] <= path)
    ensures NodeAt(after, path) == NodeAt(objects, path)
  {
    if path != [] {
      var parent, last := path[..|path| - 1], path[|path| - 1];
      NodeElsewhere(objects, home, next, n, after, name, parent);
      NodeHome(objects, home, next, parent);
      assert path == parent + [last];
    }
  }

  lemma FileElsewhere(
    objects: Objects, home: map<nat, Path>, next: nat, n: nat, after: Objects, name: string, path: Path)
    requires Rooted(objects, home, next)
    requires n in home && n in after && forall other :: other in home && other != n ==>
               other in after && after[other] == objects[other]
    requires forall s :: s != name ==>
               (s in after[n] <==> s in objects[n]) && (s in objects[n] ==> after[n][s] == objects[n][s])
    requires !(home[n] + [name] <= path)
    ensures FileAt(after, path) == FileAt(objects, path)
  {
    if path != [] {
      var parent, last := path[..|path| - 1], path[|path| - 1];
      NodeElsewhere(objects, home, next, n, after, name, parent);
      NodeHome(objects, home, next, parent);
      assert path == parent + [last];
    }
  }

  /** Objects that do not hang in the tree are invisible. */
  lemma {:induction false} NodeDetached(objects: Objects, home: map<nat, Path>, next: nat, after: Objects, path: Path)
    requires Rooted(objects, home, next)
    requires forall n :: n in home ==> n in after && after[n] == objects[n]
    ensures NodeAt(after, path) == NodeAt(objects, path)
    ensures FileAt(after, path) == FileAt(objects, path)
  {
    if path != [] {
      NodeDetached(objects, home, next, after, path[..|path| - 1]);
      NodeHome(objects, home, next, path[..|path| - 1]);
    }
  }

  /** Nothing is found below an entry that is missing or a file. */
  lemma {:induction false} NothingBelow(objects: Objects, path: Path, below: Path)
    requires path <= below && NodeAt(objects, path).None?
    ensures NodeAt(objects, below).None?
    ensures path < below ==> FileAt(objects, below).None?
  {
    if path < below {
      NothingBelow(objects, path, below[..|below| - 1]);
    } else {
      assert path == below;
    }
  }

  // ----- the two kinds of insertion -----

  lemma NewDirectoryRooted(objects: Objects, home: map<nat, Path>, next: nat, n: nat, name: string)
    requires Rooted(objects, home, next) && n in home && name !in objects[n]
    ensures next !in objects && forall m :: m in home ==> m in objects && m != next
    ensures Rooted(objects[next := map[]][n := objects[n][name := Directory(next)]],
                   home[next := home[n] + [name]], next + 1)
  {
  }

  /** A new directory changes no file. */
  lemma NewDirectory(objects: Objects, home: map<nat, Path>, next: nat, n: nat, name: string)
    requires Rooted(objects, home, next) && n in home && NodeAt(objects, home[n]) == Some(n) && name !in objects[n]
    ensures var after := objects[next := map[]][n := objects[n][name := Directory(next)]];
            && Rooted(after, home[next := home[n] + [name]], next + 1)
            && NodeAt(after, home[n] + [name]) == Some(next)
            && (forall path :: FileAt(after, path) == FileAt(objects, path))
            && forall path :: IsDirectory(after, path) <==> path == home[n] + [name] || IsDirectory(objects, path)
  {
    hide Rooted, FileAt;
    NewDirectoryRooted(objects, home, next, n, name);
    var after := objects[next := map[]][n := objects[n][name := Directory(next)]];
    var at := home[n] + [name];
    NodeElsewhere(objects, home, next, n, after, name, home[n]);
    assert at[..|at| - 1] == home[n];
    NoneThere(objects, home[n], n, name);
    forall path
      ensures FileAt(after, path) == FileAt(objects, path)
      ensures IsDirectory(after, path) <==> path == at || IsDirectory(objects, path)
    {
      if at < path {
        NothingBelow(objects, at, path);
        EmptyBelow(after, at, next, path);
      } else if path == at {
        NoFileThere(objects, home[n], n, name);
        NoFileThere(after, home[n], n, name);
      } else {
        NodeElsewhere(objects, home, next, n, after, name, path);
        FileElsewhere(objects, home, next, n, after, name, path);
      }
    }
  }

  lemma NoneThere(objects: Objects, path: Path, n: nat, name: string)
    requires NodeAt(objects, path) == Some(n) && n in objects
    requires name !in objects[n] || objects[n][name].File?
    ensures NodeAt(objects, path + [name]) == None
  {
    assert (path + [name])[..|path|] == path;
  }

  lemma NoFileThere(objects: Objects, path: Path, n: nat, name: string)
    requires NodeAt(objects, path) == Some(n) && n in objects
    requires name !in objects[n] || objects[n][name].Directory?
    ensures FileAt(objects, path + [name]) == None
  {
    assert (path + [name])[..|path|] == path;
  }

  lemma {:induction false} EmptyBelow(objects: Objects, at: Path, n: nat, below: Path)
    requires at < below && NodeAt(objects, at) == Some(n) && n in objects && objects[n] == map[]
    ensures NodeAt(objects, below).None? && FileAt(objects, below).None?
  {
    var parent := below[..|below| - 1];
    if at < parent {
      EmptyBelow(objects, at, n, parent);
    } else {
      assert parent == at;
    }
  }

  lemma NewFileRooted(objects: Objects, home: map<nat, Path>, next: nat, n: nat, name: string, contents: string)
    requires Rooted(objects, home, next) && n in home
    ensures forall m :: m in home ==> m in objects
    ensures Rooted(objects[n := objects[n][name := File(contents)]], home, next)
  {
  }

  /** A file replaces whatever was at its path and below. */
  lemma NewFile(objects: Objects, home: map<nat, Path>, next: nat, n: nat, name: string, contents: string)
    requires Rooted(objects, home, next) && n in home && NodeAt(objects, home[n]) == Some(n)
    ensures n in objects
    ensures var after := objects[n := objects[n][name := File(contents)]];
            && Rooted(after, home, next)
            && (forall path :: FileAt(after, path) ==
                  if path == home[n] + [name] then Some(contents)
                  else if ProperPrefix(home[n] + [name], path) then None
                  else FileAt(objects, path))
            && forall path :: IsDirectory(after, path) <==>
                 !Prefix(home[n] + [name], path) && IsDirectory(objects, path)
  {
    hide Rooted, FileAt;
    NewFileRooted(objects, home, next, n, name, contents);
    var after := objects[n := objects[n][name := File(contents)]];
    var at := home[n] + [name];
    NodeElsewhere(objects, home, next, n, after, name, home[n]);
    assert at[..|at| - 1] == home[n];
    NoneThere(after, home[n], n, name);
    forall path
      ensures FileAt(after, path) ==
              if path == at then Some(contents) else if ProperPrefix(at, path) then None else FileAt(objects, path)
      ensures IsDirectory(after, path) <==> !Prefix(at, path) && IsDirectory(objects, path)
    {
      if at < path {
        NothingBelow(after, at, path);
      } else if path == at {
        FileThere(after, home[n], n, name);
      } else {
        NodeElsewhere(objects, home, next, n, after, name, path);
        FileElsewhere(objects, home, next, n, after, name, path);
      }
    }
  }

  lemma FileThere(objects: Objects, path: Path, n: nat, name: string)
    requires NodeAt(objects, path) == Some(n) && n in objects && name in objects[n] && objects[n][name].File?
    ensures FileAt(objects, path + [name]) == Some(objects[n][name].contents)
  {
    assert (path + [name])[..|path|] == path;
  }

  /** A file sits at a proper prefix of the path. */
  predicate Blocked(objects: Objects, path: Path) {
    exists j :: 0 < j < |path| && FileAt(objects, path[..j]).Some?
  }

  /** The files after something was placed: nothing happens below a file; else all below is replaced. */
  function AfterPlacing(objects: Objects, parts: Path, contents: string, path: Path): Option<string> {
    if Blocked(objects, parts) then FileAt(objects, path)
    else if path == parts then Some(contents)
    else if ProperPrefix(parts, path) then None
    else FileAt(objects, path)
  }

  /** The directories after something was placed: those on the way to it, and none at or below it. */
  predicate DirectoryAfter(objects: Objects, parts: Path, path: Path) {
    if Blocked(objects, parts) then IsDirectory(objects, path)
    else ProperPrefix(path, parts) || (IsDirectory(objects, path) && !Prefix(parts, path))
  }

  lemma DirectoryIsNoFile(objects: Objects, path: Path)
    requires NodeAt(objects, path).Some?
    ensures FileAt(objects, path).None?
  {
  }

  /** Entering the entry of a name: a directory is a step further down, a file blocks. */
  lemma StepDown(objects: Objects, node: nat, path: Path, name: string)
    requires NodeAt(objects, path) == Some(node) && node in objects && name in objects[node]
    ensures objects[node][name].Directory? ==> NodeAt(objects, path + [name]) == Some(objects[node][name].node)
    ensures objects[node][name].File? ==> FileAt(objects, path + [name]).Some?
  {
    assert (path + [name])[..|path|] == path;
  }

  lemma NewDetached(objects: Objects, home: map<nat, Path>, next: nat)
    requires Rooted(objects, home, next)
    ensures Rooted(objects[next := map[]], home, next + 1)
    ensures forall path :: FileAt(objects[next := map[]], path) == FileAt(objects, path)
    ensures forall path :: IsDirectory(objects[next := map[]], path) <==> IsDirectory(objects, path)
  {
    forall path
      ensures FileAt(objects[next := map[]], path) == FileAt(objects, path)
      ensures IsDirectory(objects[next := map[]], path) <==> IsDirectory(objects, path)
    {
      NodeDetached(objects, home, next, objects[next := map[]], path);
    }
  }

  lemma WriteDetached(objects: Objects, home: map<nat, Path>, next: nat, n: nat, name: string, e: Entry)
    requires Rooted(objects, home, next) && n in objects && n !in home
    requires e.Directory? ==> e.node in objects && e.node !in home
    ensures Rooted(objects[n := objects[n][name := e]], home, next)
    ensures forall path :: FileAt(objects[n := objects[n][name := e]], path) == FileAt(objects, path)
    ensures forall path :: IsDirectory(objects[n := objects[n][name := e]], path) <==> IsDirectory(objects, path)
  {
    forall path
      ensures FileAt(objects[n := objects[n][name := e]], path) == FileAt(objects, path)
      ensures IsDirectory(objects[n := objects[n][name := e]], path) <==> IsDirectory(objects, path)
    {
      NodeDetached(objects, home, next, objects[n := objects[n][name := e]], path);
    }
  }

  /** Where the pointer stands after the first parts: at their directory, or outside below a file. */
  ghost predicate PointerOk(objects: Objects, home: map<nat, Path>, node: nat, parts: Path, i: nat) {
    && i <= |parts| && node in objects
    && (node in home ==>
          NodeAt(objects, parts[..i]) == Some(node) &&
          forall j :: 0 < j <= i ==> FileAt(objects, parts[..j]).None?)
    && (node !in home ==> Blocked(objects, parts))
  }

  lemma AtRoot(objects: Objects, home: map<nat, Path>, next: nat, parts: Path)
    requires Rooted(objects, home, next)
    ensures PointerOk(objects, home, 0, parts, 0)
    ensures IsDirectory(objects, [])
  {
    assert parts[..0] == [];
  }

  lemma PrefixesOfOneMore(parts: Path, i: nat)
    requires i < |parts|
    ensures forall path :: Prefix(path, parts[..i + 1]) <==> Prefix(path, parts[..i]) || path == parts[..i + 1]
    ensures forall path :: ProperPrefix(path, parts) <==> Prefix(path, parts[..|parts| - 1])
  {
    forall path
      ensures Prefix(path, parts[..i + 1]) <==> Prefix(path, parts[..i]) || path == parts[..i + 1]
      ensures ProperPrefix(path, parts) <==> Prefix(path, parts[..|parts| - 1])
    {
      PrefixOfOneMore(path, parts, i);
      PrefixOfOneMore(path, parts, |parts| - 1);
      assert parts[..|parts|] == parts;
    }
  }

  lemma PrefixOfOneMore(path: Path, parts: Path, i: nat)
    requires i < |parts|
    ensures Prefix(path, parts[..i + 1]) <==> Prefix(path, parts[..i]) || path == parts[..i + 1]
    ensures ProperPrefix(path, parts[..i + 1]) <==> Prefix(path, parts[..i])
  {
    assert parts[..i + 1] == parts[..i] + [parts[i]];
  }

  lemma SameBlocked(a: Objects, b: Objects, parts: Path)
    requires forall path :: FileAt(a, path) == FileAt(b, path)
    ensures Blocked(a, parts) <==> Blocked(b, parts)
  {
    hide FileAt;
  }

  lemma NextIsNew(objects: Objects, home: map<nat, Path>, next: nat)
    requires Rooted(objects, home, next)
    ensures next !in objects && next !in home
  {
  }

  /** The pointer stands at the home of its object. */
  lemma PointerHome(objects: Objects, home: map<nat, Path>, next: nat, node: nat, parts: Path, i: nat)
    requires Rooted(objects, home, next) && PointerOk(objects, home, node, parts, i)
    ensures node in objects
    ensures node in home ==> home[node] == parts[..i] && NodeAt(objects, parts[..i]) == Some(node)
  {
    NodeHome(objects, home, next, parts[..i]);
  }

  lemma MakeDirectory(objects: Objects, home: map<nat, Path>, next: nat, node: nat, parts: Path, i: nat)
    requires Rooted(objects, home, next) && PointerOk(objects, home, node, parts, i) && i < |parts|
    requires node in objects && parts[i] !in objects[node]
    ensures var after := objects[next := map[]][node := objects[node][parts[i] := Directory(next)]];
            var homes := if node in home then home[next := parts[..i + 1]] else home;
            && Rooted(after, homes, next + 1)
            && (forall path :: FileAt(after, path) == FileAt(objects, path))
            && (forall path :: IsDirectory(after, path) <==>
                  IsDirectory(objects, path) || (!Blocked(objects, parts) && path == parts[..i + 1]))
            && PointerOk(after, homes, node, parts, i)
  {
    hide Rooted, FileAt, NodeAt, IsDirectory, Blocked;
    var after := objects[next := map[]][node := objects[node][parts[i] := Directory(next)]];
    PointerHome(objects, home, next, node, parts, i);
    NextIsNew(objects, home, next);
    if node in home {
      assert parts[..i] + [parts[i]] == parts[..i + 1];
      NewDirectory(objects, home, next, node, parts[i]);
      NodeKept(objects, home, next, node, parts[i]);
      NotBlocked(objects, home, next, node, parts, i);
    } else {
      NewDetached(objects, home, next);
      WriteDetached(objects[next := map[]], home, next + 1, node, parts[i], Directory(next));
      SameBlocked(objects, after, parts);
    }
  }

  /** A path that ends where nothing is does not lead below a file. */
  lemma NotBlocked(objects: Objects, home: map<nat, Path>, next: nat, node: nat, parts: Path, i: nat)
    requires Rooted(objects, home, next) && PointerOk(objects, home, node, parts, i) && i < |parts|
    requires node in home && node in objects && parts[i] !in objects[node]
    ensures !Blocked(objects, parts)
  {
    hide Rooted, FileAt, NodeAt;
    var at := parts[..i + 1];
    assert at == parts[..i] + [parts[i]];
    NoneThere(objects, parts[..i], node, parts[i]);
    NoFileThere(objects, parts[..i], node, parts[i]);
    forall j | 0 < j < |parts| ensures FileAt(objects, parts[..j]).None? {
      if j > i + 1 {
        assert at < parts[..j];
        NothingBelow(objects, at, parts[..j]);
      }
    }
  }

  lemma NodeKept(objects: Objects, home: map<nat, Path>, next: nat, n: nat, name: string)
    requires Rooted(objects, home, next) && n in home && n in objects && next !in home
    ensures NodeAt(objects[next := map[]][n := objects[n][name := Directory(next)]], home[n])
            == NodeAt(objects, home[n])
  {
    var grown := objects[next := map[]][n := objects[n][name := Directory(next)]];
    NodeElsewhere(objects, home, next, n, grown, name, home[n]);
  }

  lemma Descend(objects: Objects, home: map<nat, Path>, next: nat, node: nat, parts: Path, i: nat)
    requires Rooted(objects, home, next) && PointerOk(objects, home, node, parts, i) && i < |parts| - 1
    requires node in objects && parts[i] in objects[node]
    ensures objects[node][parts[i]].Directory? ==> PointerOk(objects, home, objects[node][parts[i]].node, parts, i + 1)
    ensures objects[node][parts[i]].File? ==> Blocked(objects, parts)
    ensures objects[node][parts[i]].Directory? && !Blocked(objects, parts) ==> IsDirectory(objects, parts[..i + 1])
  {
    hide FileAt, NodeAt;
    PointerHome(objects, home, next, node, parts, i);
    if node in home {
      StepDown(objects, node, parts[..i], parts[i]);
      assert parts[..i] + [parts[i]] == parts[..i + 1];
      if objects[node][parts[i]].Directory? {
        DirectoryIsNoFile(objects, parts[..i + 1]);
      }
    }
  }

  lemma DescendOutside(objects: Objects, home: map<nat, Path>, next: nat, parts: Path, i: nat)
    requires Rooted(objects, home, next) && Blocked(objects, parts) && i <= |parts|
    ensures var after := objects[next := map[]];
            && Rooted(after, home, next + 1)
            && (forall path :: FileAt(after, path) == FileAt(objects, path))
            && (forall path :: IsDirectory(after, path) <==> IsDirectory(objects, path))
            && PointerOk(after, home, next, parts, i)
  {
    hide Rooted, FileAt, NodeAt, Blocked, IsDirectory;
    NextIsNew(objects, home, next);
    NewDetached(objects, home, next);
    SameBlocked(objects, objects[next := map[]], parts);
  }

  lemma PutFile(objects: Objects, home: map<nat, Path>, next: nat, node: nat, parts: Path, contents: string)
    requires parts != [] && Rooted(objects, home, next) && PointerOk(objects, home, node, parts, |parts| - 1)
    ensures node in objects
    ensures var after := objects[node := objects[node][parts[|parts| - 1] := File(contents)]];
            && Rooted(after, home, next)
            && (forall path :: FileAt(after, path) == AfterPlacing(objects, parts, contents, path))
            && forall path :: IsDirectory(after, path) <==>
                 IsDirectory(objects, path) && (Blocked(objects, parts) || !Prefix(parts, path))
  {
    hide Rooted, FileAt, NodeAt, IsDirectory;
    var i := |parts| - 1;
    PointerHome(objects, home, next, node, parts, i);
    assert parts[..i] + [parts[i]] == parts;
    if node in home {
      NewFile(objects, home, next, node, parts[i], contents);
      assert !Blocked(objects, parts);
    } else {
      WriteDetached(objects, home, next, node, parts[i], File(contents));
    }
  }

  lemma EmptyTree(path: Path)
    ensures FileAt(map[0 := map[]], path) == None
    ensures IsDirectory(map[0 := map[]], path) <==> path == []
  {
    if path != [] {
      EmptyBelow(map[0 := map[]], [], 0, path);
    }
  }

  class Tree {
    var objects: Objects
    var next: nat
    ghost var home: map<nat, Path>

    ghost predicate Valid()
      reads this
    {
      Rooted(objects, home, next)
    }

    constructor ()
      ensures Valid()
      ensures forall path :: FileAt(objects, path) == None && (IsDirectory(objects, path) <==> path == [])
    {
      objects := map[0 := map[]];
      next := 1;
      home := map[0 := []];
      new;
      forall path ensures FileAt(objects, path) == None && (IsDirectory(objects, path) <==> path == []) {
        EmptyTree(path);
      }
    }

    /** Walks down the parts, making directories where nothing is, and puts the file at the end. */
    method Place(parts: Path, contents: string)
      requires Valid() && parts != []
      modifies this
      ensures Valid()
      ensures forall path :: FileAt(objects, path) == AfterPlacing(old(objects), parts, contents, path)
      ensures forall path :: IsDirectory(objects, path) <==> DirectoryAfter(old(objects), parts, path)
    {
      hide Rooted, FileAt, NodeAt, PointerOk, Blocked, IsDirectory;
      var node := 0;
      AtRoot(objects, home, next, parts);
      for i := 0 to |parts| - 1
        invariant Rooted(objects, home, next)
        invariant forall path :: FileAt(objects, path) == FileAt(old(objects), path)
        invariant forall path :: IsDirectory(objects, path) <==>
                    IsDirectory(old(objects), path) || (!Blocked(old(objects), parts) && Prefix(path, parts[..i]))
        invariant PointerOk(objects, home, node, parts, i)
      {
        SameBlocked(old(objects), objects, parts);
        PrefixesOfOneMore(parts, i);
        var part := parts[i];
        PointerHome(objects, home, next, node, parts, i);
        if part !in objects[node] {
          MakeDirectory(objects, home, next, node, parts, i);
          objects := objects[next := map[]][node := objects[node][part := Directory(next)]];
          home := if node in home then home[next := parts[..i + 1]] else home;
          next := next + 1;
        }
        Descend(objects, home, next, node, parts, i);
        match objects[node][part] {
          case Directory(below) =>
            node := below;
          case File(_) =>
            DescendOutside(objects, home, next, parts, i + 1);
            objects := objects[next := map[]];
            node := next;
            next := next + 1;
        }
      }
      PrefixesOfOneMore(parts, |parts| - 1);
      PutFile(objects, home, next, node, parts, contents);
      SameBlocked(old(objects), objects, parts);
      objects := objects[node := objects[node][parts[|parts| - 1] := File(contents)]];
    }
  }

  // ----- the whole map -----

  function Parsed(files: seq<(string, string)>): (r: seq<(Path, string)>)
    ensures |r| == |files| && forall k :: 0 <= k < |r| ==> r[k] == (Split(files[k].0, '/'), files[k].1)
  {
    seq(|files|, k requires 0 <= k < |files| => (Split(files[k].0, '/'), files[k].1))
  }

  /** The entries of a JavaScript object have different keys. */
  predicate DistinctKeys(files: seq<(string, string)>) {
    forall i, j :: 0 <= i < j < |files| ==> files[i].0 != files[j].0
  }

  lemma ParsedDistinct(files: seq<(string, string)>)
    requires DistinctKeys(files)
    ensures DistinctPaths(Parsed(files))
  {
    forall i, j | 0 <= i < j < |files| ensures Parsed(files)[i].0 != Parsed(files)[j].0 {
      JoinAfterSplit(files[i].0, '/');
      JoinAfterSplit(files[j].0, '/');
    }
  }

  lemma {:induction false} GivenAt(entries: seq<(Path, string)>, k: nat)
    requires DistinctPaths(entries) && k < |entries|
    ensures Given(entries, entries[k].0) == Some(entries[k].1)
  {
    var n := |entries| - 1;
    if k < n {
      GivenAt(entries[..n], k);
    }
  }

  lemma {:induction false} GivenFrom(entries: seq<(Path, string)>, path: Path) returns (k: nat)
    requires Given(entries, path).Some?
    ensures k < |entries| && entries[k] == (path, Given(entries, path).value)
  {
    k := |entries| - 1;
    if entries[k].0 != path {
      k := GivenFrom(entries[..k], path);
    }
  }

  /** Below a shadowing entry there is one that is not shadowed itself. */
  lemma {:induction false} ShadowIsThere(entries: seq<(Path, string)>, path: Path) returns (j: nat)
    requires DistinctPaths(entries) && Shadowed(entries, path) && forall k :: 0 <= k < |entries| ==> entries[k].0 != []
    ensures 0 < j < |path| && Expected(entries, path[..j]).Some?
    decreases |path|
  {
    var k :| 0 <= k < |entries| && ProperPrefix(entries[k].0, path);
    var p := entries[k].0;
    if Shadowed(entries, p) {
      j := ShadowIsThere(entries, p);
      assert path[..j] == p[..j];
    } else {
      j := |p|;
      assert path[..j] == p;
      GivenAt(entries, k);
    }
  }

  /** What placing one more entry does to the expected files. */
  lemma ExpectedStep(objects: Objects, entries: seq<(Path, string)>, p: Path, contents: string, path: Path)
    requires DistinctPaths(entries + [(p, contents)])
    requires forall k :: 0 <= k < |entries| ==> entries[k].0 != []
    requires forall q :: FileAt(objects, q) == Expected(entries, q)
    ensures Expected(entries + [(p, contents)], path) == AfterPlacing(objects, p, contents, path)
  {
    hide FileAt, Given;
    var longer := entries + [(p, contents)];
    NotYetGiven(entries, p, contents);
    ShadowedStep(entries, p, contents, path);
    BlockedIffShadowed(objects, entries, p);
    GivenStep(entries, p, contents, path);
    if Shadowed(entries, p) && ProperPrefix(p, path) {
      ShadowFurther(entries, p, path);
    }
    ProperPrefixes(p, path);
  }

  lemma ProperPrefixes(p: Path, path: Path)
    ensures ProperPrefix(p, path) ==> path != p
  {
  }

  lemma ShadowFurther(entries: seq<(Path, string)>, p: Path, path: Path)
    requires Shadowed(entries, p) && ProperPrefix(p, path)
    ensures Shadowed(entries, path)
  {
    var k :| 0 <= k < |entries| && ProperPrefix(entries[k].0, p);
    assert ProperPrefix(entries[k].0, path);
  }

  lemma ShadowedStep(entries: seq<(Path, string)>, p: Path, contents: string, path: Path)
    ensures Shadowed(entries + [(p, contents)], path) <==> Shadowed(entries, path) || ProperPrefix(p, path)
  {
    hide ProperPrefix;
    var longer := entries + [(p, contents)];
    if Shadowed(entries, path) {
      var k :| 0 <= k < |entries| && ProperPrefix(entries[k].0, path);
      assert longer[k] == entries[k];
    }
    assert longer[|entries|] == (p, contents);
  }

  lemma GivenStep(entries: seq<(Path, string)>, p: Path, contents: string, path: Path)
    ensures Given(entries + [(p, contents)], path) == if path == p then Some(contents) else Given(entries, path)
  {
    assert (entries + [(p, contents)])[..|entries|] == entries;
  }

  lemma NotYetGiven(entries: seq<(Path, string)>, p: Path, contents: string)
    requires DistinctPaths(entries + [(p, contents)])
    ensures DistinctPaths(entries) && Given(entries, p).None?
  {
    var longer := entries + [(p, contents)];
    assert forall k :: 0 <= k < |entries| ==> longer[k] == entries[k] && longer[k].0 != longer[|entries|].0;
    if Given(entries, p).Some? {
      var k := GivenFrom(entries, p);
    }
  }

  lemma BlockedIffShadowed(objects: Objects, entries: seq<(Path, string)>, p: Path)
    requires DistinctPaths(entries) && forall k :: 0 <= k < |entries| ==> entries[k].0 != []
    requires forall q :: FileAt(objects, q) == Expected(entries, q)
    ensures Blocked(objects, p) <==> Shadowed(entries, p)
  {
    hide FileAt;
    if Shadowed(entries, p) {
      var j := ShadowIsThere(entries, p);
    }
    if Blocked(objects, p) {
      var j :| 0 < j < |p| && FileAt(objects, p[..j]).Some?;
      var k := GivenFrom(entries, p[..j]);
      assert ProperPrefix(entries[k].0, p);
    }
  }

  /** A path is a directory when some entry is below it and none is at it or above. */
  predicate ExpectedDirectory(entries: seq<(Path, string)>, path: Path) {
    path == [] ||
    ((exists k :: 0 <= k < |entries| && ProperPrefix(path, entries[k].0)) &&
     (forall k :: 0 <= k < |entries| ==> !Prefix(entries[k].0, path)))
  }

  lemma PathsAround(p: Path, q: Path, r: Path)
    ensures Prefix(p, q) && ProperPrefix(q, r) ==> ProperPrefix(p, r)
    ensures ProperPrefix(p, q) && Prefix(q, r) ==> Prefix(p, r)
    ensures ProperPrefix(p, r) && ProperPrefix(q, r) ==> Prefix(p, q) || ProperPrefix(q, p)
    ensures p == [] ==> (Prefix(q, p) <==> q == []) && (ProperPrefix(p, q) <==> q != [])
    ensures ProperPrefix(p, q) ==> !Prefix(q, p)
  {
  }

  lemma DirectoryStep(objects: Objects, entries: seq<(Path, string)>, p: Path, contents: string, path: Path)
    requires DistinctPaths(entries + [(p, contents)]) && p != []
    requires forall k :: 0 <= k < |entries| ==> entries[k].0 != []
    requires forall q :: FileAt(objects, q) == Expected(entries, q)
    requires IsDirectory(objects, path) <==> ExpectedDirectory(entries, path)
    ensures ExpectedDirectory(entries + [(p, contents)], path) <==> DirectoryAfter(objects, p, path)
  {
    hide FileAt, Expected, IsDirectory, Blocked;
    var longer := entries + [(p, contents)];
    NotYetGiven(entries, p, contents);
    BlockedIffShadowed(objects, entries, p);
    DirectoryStepOf(entries, p, contents, path);
  }

  lemma DirectoryStepOf(entries: seq<(Path, string)>, p: Path, contents: string, path: Path)
    requires p != [] && forall k :: 0 <= k < |entries| ==> entries[k].0 != []
    ensures ExpectedDirectory(entries + [(p, contents)], path) <==>
              if Shadowed(entries, p) then ExpectedDirectory(entries, path)
              else ProperPrefix(path, p) || (ExpectedDirectory(entries, path) && !Prefix(p, path))
  {
    hide ProperPrefix, Prefix;
    var longer := entries + [(p, contents)];
    assert longer[|entries|].0 == p && forall k :: 0 <= k < |entries| ==> longer[k] == entries[k];
    assert (exists k :: 0 <= k < |longer| && ProperPrefix(path, longer[k].0)) <==>
             ProperPrefix(path, p) || exists k :: 0 <= k < |entries| && ProperPrefix(path, entries[k].0);
    PathsAround(path, p, []);
    forall k | 0 <= k < |entries|
      ensures ProperPrefix(entries[k].0, p) && Prefix(p, path) ==> Prefix(entries[k].0, path)
      ensures Prefix(entries[k].0, path) && ProperPrefix(path, p) ==> ProperPrefix(entries[k].0, p)
      ensures ProperPrefix(entries[k].0, p) && ProperPrefix(path, p) ==>
                Prefix(entries[k].0, path) || ProperPrefix(path, entries[k].0)
    {
      PathsAround(entries[k].0, p, path);
      PathsAround(entries[k].0, path, p);
    }
  }

  /** The tree of a map: each file unless another entry sits above it, no other files, and the directories between. */
  ghost predicate TreeOf(objects: Objects, files: seq<(string, string)>) {
    && (forall k :: 0 <= k < |files| ==>
          var path := Split(files[k].0, '/');
          FileAt(objects, path) ==
          if exists j :: 0 <= j < |files| && Split(files[j].0, '/') < path then None else Some(files[k].1))
    && (forall path :: FileAt(objects, path).Some? ==>
          exists k :: 0 <= k < |files| && Split(files[k].0, '/') == path)
    && (forall path :: IsDirectory(objects, path) && path != [] ==>
          exists k :: 0 <= k < |files| && path < Split(files[k].0, '/'))
    && (forall path, k :: 0 <= k < |files| && path < Split(files[k].0, '/') ==>
          (IsDirectory(objects, path) <==>
             forall j :: 0 <= j < |files| ==> !(Split(files[j].0, '/') <= path)))
  }

  method BuildTree(files: seq<(string, string)>) returns (tree: Option<Tree>)
    requires DistinctKeys(files)
    ensures tree.Some? <==> forall k :: 0 <= k < |files| ==> Accepted(files[k].0)
    ensures tree.Some? ==> fresh(tree.value) && TreeOf(tree.value.objects, files)
    ensures tree.Some? ==> forall path :: FileAt(tree.value.objects, path) == Expected(Parsed(files), path)
  {
    hide FileAt, Expected, AfterPlacing, Accepted, TreeOf, ExpectedDirectory, DirectoryAfter, IsDirectory;
    var t := new Tree();
    ParsedDistinct(files);
    NothingExpected();
    assert Parsed(files)[..0] == [];
    for k := 0 to |files|
      invariant t.Valid() && fresh(t)
      invariant forall j :: 0 <= j < k ==> Accepted(files[j].0)
      invariant forall path :: FileAt(t.objects, path) == Expected(Parsed(files)[..k], path)
      invariant forall path :: IsDirectory(t.objects, path) <==> ExpectedDirectory(Parsed(files)[..k], path)
    {
      var path, content := files[k].0, files[k].1;
      var parts := Split(path, '/');
      if !Accepted(path) {
        return None;
      }
      ghost var before := t.objects;
      assert Parsed(files)[..k + 1] == Parsed(files)[..k] + [(parts, content)];
      forall q ensures Expected(Parsed(files)[..k + 1], q) == AfterPlacing(before, parts, content, q) {
        ExpectedStep(before, Parsed(files)[..k], parts, content, q);
      }
      forall q ensures ExpectedDirectory(Parsed(files)[..k + 1], q) <==> DirectoryAfter(before, parts, q) {
        DirectoryStep(before, Parsed(files)[..k], parts, content, q);
      }
      t.Place(parts, content);
    }
    assert Parsed(files)[..|files|] == Parsed(files);
    TreeIs(t.objects, files);
    return Some(t);
  }

  lemma NothingExpected()
    ensures forall path :: Expected([], path) == None
    ensures forall path :: ExpectedDirectory([], path) <==> path == []
  {
  }

  lemma FileInTree(files: seq<(string, string)>, k: nat)
    requires DistinctKeys(files) && k < |files|
    ensures var path := Split(files[k].0, '/');
            Expected(Parsed(files), path) ==
            if exists j :: 0 <= j < |files| && Split(files[j].0, '/') < path then None else Some(files[k].1)
  {
    hide Given, Shadowed, Split;
    ParsedDistinct(files);
    GivenAt(Parsed(files), k);
    ShadowedMeans(files, Split(files[k].0, '/'));
  }

  lemma OnlyGivenFiles(files: seq<(string, string)>, path: Path) returns (k: nat)
    requires Expected(Parsed(files), path).Some?
    ensures k < |files| && Split(files[k].0, '/') == path
  {
    hide Given, Shadowed, Split;
    k := GivenFrom(Parsed(files), path);
  }

  lemma SomethingBelow(files: seq<(string, string)>, path: Path) returns (k: nat)
    requires ExpectedDirectory(Parsed(files), path) && path != []
    ensures k < |files| && path < Split(files[k].0, '/')
  {
    hide Split;
    k :| 0 <= k < |Parsed(files)| && ProperPrefix(path, Parsed(files)[k].0);
  }

  lemma TreeIs(objects: Objects, files: seq<(string, string)>)
    requires DistinctKeys(files)
    requires forall path :: FileAt(objects, path) == Expected(Parsed(files), path)
    requires forall path :: IsDirectory(objects, path) <==> ExpectedDirectory(Parsed(files), path)
    ensures TreeOf(objects, files)
  {
    hide FileAt, Expected, ExpectedDirectory, IsDirectory, Split, Parsed, DistinctKeys;
    forall k | 0 <= k < |files|
      ensures var path := Split(files[k].0, '/');
              FileAt(objects, path) ==
              if exists j :: 0 <= j < |files| && Split(files[j].0, '/') < path then None else Some(files[k].1)
    {
      FileInTree(files, k);
    }
    forall path | FileAt(objects, path).Some? ensures exists k :: 0 <= k < |files| && Split(files[k].0, '/') == path {
      var k := OnlyGivenFiles(files, path);
    }
    forall path | IsDirectory(objects, path) && path != []
      ensures exists k :: 0 <= k < |files| && path < Split(files[k].0, '/')
    {
      var k := SomethingBelow(files, path);
    }
    forall path, k | 0 <= k < |files| && path < Split(files[k].0, '/')
      ensures IsDirectory(objects, path) <==> forall j :: 0 <= j < |files| ==> !(Split(files[j].0, '/') <= path)
    {
      DirectoryMeans(files, path, k);
    }
  }

  lemma ShadowedMeans(files: seq<(string, string)>, path: Path)
    ensures Shadowed(Parsed(files), path) <==> exists j :: 0 <= j < |files| && Split(files[j].0, '/') < path
  {
    if j :| 0 <= j < |files| && Split(files[j].0, '/') < path {
      assert ProperPrefix(Parsed(files)[j].0, path);
    }
  }

  lemma DirectoryMeans(files: seq<(string, string)>, path: Path, k: nat)
    requires k < |files| && path < Split(files[k].0, '/')
    ensures ExpectedDirectory(Parsed(files), path) <==>
              forall j :: 0 <= j < |files| ==> !(Split(files[j].0, '/') <= path)
  {
    hide Split;
    assert ProperPrefix(path, Parsed(files)[k].0);
    if forall j :: 0 <= j < |files| ==> !(Split(files[j].0, '/') <= path) {
      forall j | 0 <= j < |files| ensures !Prefix(Parsed(files)[j].0, path) {
        assert !(Split(files[j].0, '/') <= path);
      }
    }
    if ExpectedDirectory(Parsed(files), path) {
      forall j | 0 <= j < |files| ensures !(Split(files[j].0, '/') <= path) {
        SplitIsNotEmpty(files[j].0);
        assert path != [] ==> !Prefix(Parsed(files)[j].0, path);
      }
    }
  }

  lemma SplitIsNotEmpty(path: string)
    ensures Split(path, '/') != []
  {
  }

  // ----- round trip and order -----

  predicate PrefixFree(entries: seq<(Path, string)>) {
    forall k :: 0 <= k < |entries| ==> !Shadowed(entries, entries[k].0)
  }

  /** The tree holds exactly the files of the map. */
  ghost predicate HoldsAll(objects: Objects, files: seq<(string, string)>) {
    && (forall k :: 0 <= k < |files| ==> FileAt(objects, Split(files[k].0, '/')) == Some(files[k].1))
    && (forall path :: FileAt(objects, path).Some? ==>
          exists k :: 0 <= k < |files| && Split(files[k].0, '/') == path && FileAt(objects, path) == Some(files[k].1))
  }

  /** An input that loses a file: both paths are accepted, and one is a directory of the other. */
  lemma FileAndDirectory(objects: Objects)
    requires forall path :: FileAt(objects, path) == Expected(Parsed([("a", "x"), ("a/b", "y")]), path)
    ensures Accepted("a") && Accepted("a/b") && !HoldsAll(objects, [("a", "x"), ("a/b", "y")])
    ensures FileAt(objects, ["a"]) == Some("x") && FileAt(objects, ["a", "b"]) == None
  {
    hide FileAt, Expected, HoldsAll, Split, Parsed;
    var files := [("a", "x"), ("a/b", "y")];
    TwoPaths();
    assert ProperPrefix(Parsed(files)[0].0, Parsed(files)[1].0);
    assert Shadowed(Parsed(files), Parsed(files)[1].0);
    RoundTrip(objects, files);
    OnlyTheFile(objects);
  }

  lemma OnlyTheFile(objects: Objects)
    requires forall path :: FileAt(objects, path) == Expected(Parsed([("a", "x"), ("a/b", "y")]), path)
    ensures FileAt(objects, ["a"]) == Some("x") && FileAt(objects, ["a", "b"]) == None
  {
    hide FileAt, Split, Given;
    var files := [("a", "x"), ("a/b", "y")];
    TwoPaths();
    ParsedDistinct(files);
    GivenAt(Parsed(files), 0);
    ShadowedMeans(files, ["a"]);
    ShadowedMeans(files, ["a", "b"]);
    assert Split(files[0].0, '/') < ["a", "b"];
  }

  lemma TwoPaths()
    ensures Split("a", '/') == ["a"] && Split("a/b", '/') == ["a", "b"]
  {
    SplitGlue("a", "", '/');
    SplitGlue("a", "/b", '/');
    SplitGlue("b", "", '/');
    assert "a" + "" == "a" && "b" + "" == "b" && "a" + "/b" == "a/b" && "/b"[1..] == "b";
  }

  /** Nothing is lost exactly when no path is a proper segment-prefix of another. */
  lemma RoundTrip(objects: Objects, files: seq<(string, string)>)
    requires DistinctKeys(files)
    requires forall path :: FileAt(objects, path) == Expected(Parsed(files), path)
    ensures HoldsAll(objects, files) <==> PrefixFree(Parsed(files))
  {
    hide FileAt, Given, Shadowed;
    var entries := Parsed(files);
    ParsedDistinct(files);
    forall k | 0 <= k < |files|
      ensures FileAt(objects, entries[k].0) == if Shadowed(entries, entries[k].0) then None else Some(files[k].1)
    {
      GivenAt(entries, k);
    }
    forall path | FileAt(objects, path).Some?
      ensures exists k ::
                0 <= k < |files| && Split(files[k].0, '/') == path && FileAt(objects, path) == Some(files[k].1)
    {
      var k := GivenFrom(entries, path);
    }
    if HoldsAll(objects, files) {
      forall k | 0 <= k < |entries| ensures !Shadowed(entries, entries[k].0) {
        assert FileAt(objects, Split(files[k].0, '/')) == Some(files[k].1);
      }
    }
  }

  /** The order in which the entries come makes no difference to the files, conflicts included. */
  lemma OrderIrrelevant(a: seq<(Path, string)>, b: seq<(Path, string)>, path: Path)
    requires DistinctPaths(a) && DistinctPaths(b) && multiset(a) == multiset(b)
    ensures Expected(a, path) == Expected(b, path)
  {
    hide Given, Shadowed;
    SameShadows(a, b, path);
    SameShadows(b, a, path);
    SameGiven(a, b, path);
    SameGiven(b, a, path);
  }

  lemma Elsewhere(a: seq<(Path, string)>, b: seq<(Path, string)>, k: nat) returns (l: nat)
    requires multiset(a) == multiset(b) && k < |a|
    ensures l < |b| && b[l] == a[k]
  {
    assert a[k] in multiset(b);
    l :| 0 <= l < |b| && b[l] == a[k];
  }

  lemma SameShadows(a: seq<(Path, string)>, b: seq<(Path, string)>, path: Path)
    requires multiset(a) == multiset(b)
    ensures Shadowed(a, path) ==> Shadowed(b, path)
  {
    if Shadowed(a, path) {
      var k :| 0 <= k < |a| && ProperPrefix(a[k].0, path);
      var l := Elsewhere(a, b, k);
      assert ProperPrefix(b[l].0, path);
    }
  }

  lemma SameGiven(a: seq<(Path, string)>, b: seq<(Path, string)>, path: Path)
    requires DistinctPaths(b) && multiset(a) == multiset(b)
    ensures Given(a, path).Some? ==> Given(b, path) == Given(a, path)
  {
    if Given(a, path).Some? {
      var k := GivenFrom(a, path);
      var l := Elsewhere(a, b, k);
      GivenAt(b, l);
    }
  }
}
