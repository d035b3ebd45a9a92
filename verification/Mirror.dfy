/** The recursive host-root mirror of full-access mode: which bind and symlink arguments it
    emits for an arbitrary host tree, symlink cycles included. */
module Mirror {
  import opened Paths
  import opened Results

  /** The host tree as the mirror sees it; `None` is an `OSError`. */
  datatype Tree = Tree(
    symlink: Path -> bool,
    linkText: Path -> Option<string>,
    resolve: Path -> Path,
    directory: Path -> Option<bool>,
    names: Path -> Option<seq<string>>)

  datatype Arg = Bind(source: Path, dest: Path) | Link(text: string, dest: Path) | Dir(dest: Path)

  predicate Distinct<T(==)>(items: seq<T>) {
    forall i, j | 0 <= i < j < |items| :: items[i] != items[j]
  }

  ghost predicate Sane(tree: Tree) {
    forall p :: tree.names(p).Some? ==> Distinct(tree.names(p).value)
  }

  /** `_contains_created`, as the string test the code performs. */
  predicate ContainsCreated(dest: Path, created: seq<Path>) {
    exists k | 0 <= k < |created| :: TextWithin(Posix(created[k]), Posix(dest))
  }

  predicate OnSpine(dest: Path, created: seq<Path>) {
    exists k | 0 <= k < |created| :: dest <= created[k]
  }

  /** The string test holds for the ancestors of created paths and for these paths themselves. For "/"
      it looks for "/" alone; the mirror never asks it about "/". */
  lemma ContainsCreatedIsSpine(dest: Path, created: seq<Path>)
    requires WellNamed(dest) && forall k | 0 <= k < |created| :: WellNamed(created[k])
    ensures ContainsCreated(dest, created) <==> if dest == [] then [] in created else OnSpine(dest, created)
  {
    forall k | 0 <= k < |created|
      ensures TextWithin(Posix(created[k]), Posix(dest)) <==>
              if dest == [] then created[k] == [] else dest <= created[k]
    {
      if dest == [] {
        WithinRoot(created[k]);
      } else {
        WithinText(created[k], dest);
      }
    }
  }

  lemma WithinRoot(path: Path)
    requires WellNamed(path)
    ensures TextWithin(Posix(path), "/") <==> path == []
  {
    if path != [] {
      assert IsName(path[0]);
      assert Posix(path)[1] == path[0][0] && path[0][0] in path[0];
    }
  }

  lemma WithinText(path: Path, dest: Path)
    requires WellNamed(path) && WellNamed(dest) && dest != []
    ensures TextWithin(Posix(path), Posix(dest)) <==> dest <= path
  {
    assert IsName(dest[0]) && |Text(dest)| > 1;
    if path != [] {
      TextWithinIsPrefix(Text(path), dest);
      SplitText(path);
    }
  }

  /** Depth of the longest path the mirror has to create. */
  function Depth(created: seq<Path>): (depth: nat)
    ensures forall k | 0 <= k < |created| :: |created[k]| <= depth
  {
    if created == [] then 0 else
      var rest := Depth(created[1..]);
      assert forall k | 1 <= k < |created| :: created[k] == created[1..][k - 1];
      if |created[0]| > rest then |created[0]| else rest
  }

  predicate Rebuilt(dest: Path, created: seq<Path>) {
    dest == [] || OnSpine(dest, created)
  }

  /** `/proc` and `/dev` are left to the sandbox. */
  function Kept(dest: Path, names: seq<string>): (kept: seq<string>)
    ensures forall n :: n in kept <==> n in names && !(dest == [] && n in ["proc", "dev"])
    ensures Distinct(names) ==> Distinct(kept)
  {
    if names == [] then [] else
      var rest := Kept(dest, names[1..]);
      assert names == [names[0]] + names[1..];
      assert Distinct(names) ==> Distinct(names[1..]) && forall k | 1 <= k < |names| :: names[k] != names[0];
      assert Distinct(rest) && names[0] !in rest ==> Distinct([names[0]] + rest) by {
        FrontIsDistinct(names[0], rest);
      }
      if dest == [] && names[0] in ["proc", "dev"] then rest else [names[0]] + rest
  }

  lemma FrontIsDistinct(name: string, rest: seq<string>)
    ensures Distinct(rest) && name !in rest ==> Distinct([name] + rest)
  {
    var all := [name] + rest;
    if Distinct(rest) && name !in rest {
      forall i, j | 0 <= i < j < |all|
        ensures all[i] != all[j]
      {
        assert all[j] == rest[j - 1] && all[j] in rest;
        assert i > 0 ==> all[i] == rest[i - 1];
      }
    }
  }

  function Entries(tree: Tree, target: Path, dest: Path): seq<string> {
    match tree.names(target)
    case None => []
    case Some(names) => Kept(dest, names)
  }

  /** The `--dir` arguments for created paths the host does not list. */
  function Missing(dest: Path, names: seq<string>, created: seq<Path>): (args: seq<Arg>)
    ensures forall a | a in args :: a.Dir?
  {
    if created == [] then [] else
      var path := created[0];
      var here := path != [] && path[..|path| - 1] == dest && path[|path| - 1] !in names;
      (if here then [Dir(path)] else []) + Missing(dest, names, created[1..])
  }

  function MissingTop(names: seq<string>, created: seq<Path>): (args: seq<Arg>)
    ensures forall a | a in args :: a.Dir?
  {
    if created == [] then [] else
      (if created[0] != [] && created[0][0] !in names then [Dir(created[0])] else [])
      + MissingTop(names, created[1..])
  }

  function Room(dest: Path, created: seq<Path>): nat {
    if |dest| <= Depth(created) then Depth(created) + 1 - |dest| else 0
  }

  /** `_mirror_host_directory`.  It recurses only below rebuilt destinations, which are no
      deeper than the deepest created path, so it ends on every tree. */
  function MirrorOf(tree: Tree, host: Path, dest: Path, created: seq<Path>): (r: Option<seq<Arg>>)
    decreases Room(dest, created), 1, 0
  {
    if !Rebuilt(dest, created) then
      if !tree.symlink(host) then Some([Bind(host, dest)])
      else
        match tree.linkText(host)
        case None => None
        case Some(text) => Some([Link(text, dest)])
    else
      var head := if dest == [] then [] else [Dir(dest)];
      var target := if tree.symlink(host) then tree.resolve(host) else host;
      match tree.directory(target)
      case None => None
      case Some(false) => Some(head)
      case Some(true) =>
        var names := Entries(tree, target, dest);
        Some(head + ChildrenOf(tree, target, dest, names, created) + Trailer(dest, names, created))
  }

  function Trailer(dest: Path, names: seq<string>, created: seq<Path>): (args: seq<Arg>)
    ensures forall a | a in args :: a.Dir?
  {
    Missing(dest, names, created) + if dest == [] then MissingTop(names, created) else []
  }

  function ChildOf(tree: Tree, target: Path, dest: Path, name: string, created: seq<Path>): seq<Arg>
    requires Rebuilt(dest, created)
    decreases Room(dest, created), 0, 0
  {
    match MirrorOf(tree, target + [name], dest + [name], created)
    case None => []
    case Some(args) => args
  }

  function ChildrenOf(tree: Tree, target: Path, dest: Path, names: seq<string>, created: seq<Path>): seq<Arg>
    requires Rebuilt(dest, created)
    decreases Room(dest, created), 0, 1 + |names|
  {
    if names == [] then [] else
      ChildrenOf(tree, target, dest, names[..|names| - 1], created)
      + ChildOf(tree, target, dest, names[|names| - 1], created)
  }

  lemma OneMoreChild(tree: Tree, target: Path, dest: Path, names: seq<string>, k: nat, created: seq<Path>)
    requires Rebuilt(dest, created) && k < |names|
    ensures ChildrenOf(tree, target, dest, names[..k + 1], created) ==
            ChildrenOf(tree, target, dest, names[..k], created) + ChildOf(tree, target, dest, names[k], created)
  {
    assert names[..k + 1][..k] == names[..k];
  }

  /** The recursion as the code performs it. */
  method MirrorHostDirectory(tree: Tree, host: Path, dest: Path, created: seq<Path>)
    returns (r: Option<seq<Arg>>)
    ensures r == MirrorOf(tree, host, dest, created)
    decreases Room(dest, created), 1
  {
    if dest != [] && !OnSpine(dest, created) {
      if tree.symlink(host) {
        var text := tree.linkText(host);
        return if text.None? then None else Some([Link(text.value, dest)]);
      }
      return Some([Bind(host, dest)]);
    }
    var head := if dest == [] then [] else [Dir(dest)];
    var target := if tree.symlink(host) then tree.resolve(host) else host;
    var listing := tree.directory(target);
    if listing.None? || !listing.value {
      return if listing.None? then None else Some(head);
    }
    var names := Entries(tree, target, dest);
    var children := MirrorEntries(tree, target, dest, names, created);
    return Some(head + children + Trailer(dest, names, created));
  }

  method MirrorEntries(tree: Tree, target: Path, dest: Path, names: seq<string>, created: seq<Path>)
    returns (args: seq<Arg>)
    requires Rebuilt(dest, created)
    ensures args == ChildrenOf(tree, target, dest, names, created)
    decreases Room(dest, created), 0
  {
    args := [];
    for k := 0 to |names|
      invariant args == ChildrenOf(tree, target, dest, names[..k], created)
    {
      OneMoreChild(tree, target, dest, names, k, created);
      var child := MirrorHostDirectory(tree, target + [names[k]], dest + [names[k]], created);
      if child.Some? {
        args := args + child.value;
      }
    }
    assert names[..|names|] == names;
  }

  /** A bind or symlink argument that shows `path`. */
  predicate Shows(arg: Arg, path: Path) {
    !arg.Dir? && arg.dest <= path
  }

  function Shown(args: seq<Arg>, path: Path): nat {
    if args == [] then 0 else
      Shown(args[..|args| - 1], path) + if Shows(args[|args| - 1], path) then 1 else 0
  }

  lemma {:induction false} ShownAppend(left: seq<Arg>, right: seq<Arg>, path: Path)
    ensures Shown(left + right, path) == Shown(left, path) + Shown(right, path)
  {
    if right == [] {
      assert left + right == left;
    } else {
      assert (left + right)[..|left + right| - 1] == left + right[..|right| - 1];
      ShownAppend(left, right[..|right| - 1], path);
    }
  }

  lemma {:induction false} ShownNone(args: seq<Arg>, path: Path)
    requires forall a | a in args :: !Shows(a, path)
    ensures Shown(args, path) == 0
  {
    if args != [] {
      assert args[|args| - 1] in args;
      ShownNone(args[..|args| - 1], path);
    }
  }

  /** What one call may emit: binds and symlinks below its own destination, none of them at
      or above a created path. */
  ghost predicate Contained(args: seq<Arg>, dest: Path, created: seq<Path>) {
    forall a | a in args && !a.Dir? :: dest <= a.dest && !Rebuilt(a.dest, created)
  }

  lemma {:induction false} NothingAboveCreated(tree: Tree, host: Path, dest: Path, created: seq<Path>)
    ensures var r := MirrorOf(tree, host, dest, created);
            r.Some? ==> Contained(r.value, dest, created)
    decreases Room(dest, created), 1, 0
  {
    if Rebuilt(dest, created) {
      var target := if tree.symlink(host) then tree.resolve(host) else host;
      if tree.directory(target) == Some(true) {
        ChildrenContained(tree, target, dest, Entries(tree, target, dest), created);
      }
    }
  }

  lemma {:induction false} ChildrenContained(
    tree: Tree, target: Path, dest: Path, names: seq<string>, created: seq<Path>)
    requires Rebuilt(dest, created)
    ensures Contained(ChildrenOf(tree, target, dest, names, created), dest, created)
    decreases Room(dest, created), 0, |names|
  {
    if names != [] {
      var last := names[|names| - 1];
      ChildrenContained(tree, target, dest, names[..|names| - 1], created);
      NothingAboveCreated(tree, target + [last], dest + [last], created);
    }
  }

  /** `path` can be reached from `dest` by listing readable directories along the rebuilt
      spine and then leaving it. */
  predicate Reachable(tree: Tree, host: Path, dest: Path, path: Path, created: seq<Path>)
    requires dest <= path
    decreases |path| - |dest|
  {
    if !Rebuilt(dest, created) then tree.symlink(host) ==> tree.linkText(host).Some?
    else
      var target := if tree.symlink(host) then tree.resolve(host) else host;
      && |dest| < |path|
      && tree.directory(target) == Some(true)
      && path[|dest|] in Entries(tree, target, dest)
      && Reachable(tree, target + [path[|dest|]], dest + [path[|dest|]], path, created)
  }

  /** Every path is shown by exactly one bind or symlink if it is reachable off the spine,
      and by none otherwise. */
  lemma {:induction false} ShownExactlyOnce(tree: Tree, host: Path, dest: Path, path: Path, created: seq<Path>)
    requires Sane(tree) && dest <= path
    ensures var r := MirrorOf(tree, host, dest, created);
            && (r.None? ==> !Reachable(tree, host, dest, path, created))
            && (r.Some? ==> Shown(r.value, path) == if Reachable(tree, host, dest, path, created) then 1 else 0)
    decreases Room(dest, created), 1, 0
  {
    if !Rebuilt(dest, created) {
      var r := MirrorOf(tree, host, dest, created);
      if r.Some? {
        assert r.value[..0] == [];
        assert Shown(r.value, path) == Shown([], path) + 1;
      }
    } else {
      var target := if tree.symlink(host) then tree.resolve(host) else host;
      var head := if dest == [] then [] else [Dir(dest)];
      ShownNone(head, path);
      if tree.directory(target) == Some(true) {
        var names := Entries(tree, target, dest);
        var children := ChildrenOf(tree, target, dest, names, created);
        var trailer := Trailer(dest, names, created);
        ChildrenShow(tree, target, dest, names, path, created);
        ShownNone(trailer, path);
        ShownAppend(head, children, path);
        ShownAppend(head + children, trailer, path);
      }
    }
  }

  lemma {:induction false} ChildrenShow(
    tree: Tree, target: Path, dest: Path, names: seq<string>, path: Path, created: seq<Path>)
    requires Sane(tree) && Rebuilt(dest, created) && dest <= path && Distinct(names)
    ensures Shown(ChildrenOf(tree, target, dest, names, created), path) ==
            if |dest| < |path| && path[|dest|] in names &&
               Reachable(tree, target + [path[|dest|]], dest + [path[|dest|]], path, created)
            then 1 else 0
    decreases Room(dest, created), 0, |names|
  {
    if names != [] {
      var last := names[|names| - 1];
      var before := names[..|names| - 1];
      ChildrenShow(tree, target, dest, before, path, created);
      var mine := ChildOf(tree, target, dest, last, created);
      ShownAppend(ChildrenOf(tree, target, dest, before, created), mine, path);
      if |dest| < |path| && path[|dest|] == last {
        assert dest + [last] <= path;
        ShownExactlyOnce(tree, target + [last], dest + [last], path, created);
      } else {
        NothingAboveCreated(tree, target + [last], dest + [last], created);
        assert forall a | a in mine && !a.Dir? :: a.dest[|dest|] == last && |dest| < |a.dest|;
        ShownNone(mine, path);
      }
    }
  }

  /** A plainly readable path: every directory above it lists the next component and no
      component on the way is a symlink. */
  predicate PlainlyListed(tree: Tree, path: Path) {
    forall k | 0 <= k < |path| ::
      && !tree.symlink(path[..k])
      && tree.directory(path[..k]) == Some(true)
      && tree.names(path[..k]).Some? && path[k] in tree.names(path[..k]).value
  }

  /** The promise of the mirror: each readable host path outside `/proc` and `/dev` that is
      not itself on the rebuilt spine appears under exactly one bind or symlink. */
  lemma ReadablePathsAreShown(tree: Tree, path: Path, created: seq<Path>)
    requires Sane(tree) && PlainlyListed(tree, path) && path != [] && path[0] !in ["proc", "dev"]
    requires !Rebuilt(path, created)
    requires forall k | 0 < k <= |path| :: tree.symlink(path[..k]) ==> tree.linkText(path[..k]).Some?
    ensures MirrorOf(tree, [], [], created).Some?
    ensures Shown(MirrorOf(tree, [], [], created).value, path) == 1
  {
    ListedIsReachable(tree, path, 0, created);
    assert path[..0] == [];
    ShownExactlyOnce(tree, [], [], path, created);
  }

  lemma {:induction false} ListedIsReachable(tree: Tree, path: Path, k: nat, created: seq<Path>)
    requires PlainlyListed(tree, path) && path != [] && path[0] !in ["proc", "dev"]
    requires !Rebuilt(path, created) && k <= |path|
    requires forall k | 0 < k <= |path| :: tree.symlink(path[..k]) ==> tree.linkText(path[..k]).Some?
    ensures Reachable(tree, path[..k], path[..k], path, created)
    decreases |path| - k
  {
    if Rebuilt(path[..k], created) {
      assert k < |path| by {
        assert path[..|path|] == path;
      }
      assert path[..k] + [path[k]] == path[..k + 1];
      ListedIsReachable(tree, path, k + 1, created);
    }
  }

  /** An argument that exposes a host path at its own place. */
  ghost predicate InPlace(tree: Tree, arg: Arg) {
    match arg
    case Bind(source, dest) => source == dest && !tree.symlink(source)
    case Link(text, dest) => tree.symlink(dest) && tree.linkText(dest) == Some(text)
    case Dir(dest) => true
  }

  /** When no rebuilt directory is a symlink on the host, every bind shows the host path of
      the same name and every symlink argument copies the host's own symlink. */
  lemma {:induction false} MirrorIsInPlace(tree: Tree, dest: Path, created: seq<Path>)
    requires forall p :: Rebuilt(p, created) ==> !tree.symlink(p)
    ensures var r := MirrorOf(tree, dest, dest, created);
            r.Some? ==> forall a | a in r.value :: InPlace(tree, a)
    decreases Room(dest, created), 1, 0
  {
    if Rebuilt(dest, created) && tree.directory(dest) == Some(true) {
      ChildrenInPlace(tree, dest, Entries(tree, dest, dest), created);
    }
  }

  lemma {:induction false} ChildrenInPlace(tree: Tree, dest: Path, names: seq<string>, created: seq<Path>)
    requires Rebuilt(dest, created)
    requires forall p :: Rebuilt(p, created) ==> !tree.symlink(p)
    ensures forall a | a in ChildrenOf(tree, dest, dest, names, created) :: InPlace(tree, a)
    decreases Room(dest, created), 0, |names|
  {
    if names != [] {
      ChildrenInPlace(tree, dest, names[..|names| - 1], created);
      MirrorIsInPlace(tree, dest + [names[|names| - 1]], created);
    }
  }
}
