/** Which directories the mirror creates: the spine that the sandbox adds its own paths to. */
module Spine {
  import opened Paths
  import opened Results
  import opened Mirror

  function TargetOf(tree: Tree, host: Path): Path {
    if tree.symlink(host) then tree.resolve(host) else host
  }

  /** The mirror of `dest` lists the children of a host directory. */
  predicate Lists(tree: Tree, host: Path, dest: Path, created: seq<Path>) {
    Rebuilt(dest, created) && tree.directory(TargetOf(tree, host)) == Some(true)
  }

  /** Listing from `dest` down the spine, the mirror rebuilds `path` itself. */
  predicate Visits(tree: Tree, host: Path, dest: Path, path: Path, created: seq<Path>)
    requires dest <= path
    decreases |path| - |dest|
  {
    if dest == path then
      Rebuilt(dest, created) && tree.directory(TargetOf(tree, host)).Some?
    else
      && Lists(tree, host, dest, created)
      && path[|dest|] in Entries(tree, TargetOf(tree, host), dest)
      && Visits(tree, TargetOf(tree, host) + [path[|dest|]], dest + [path[|dest|]], path, created)
  }

  /** Listing from `dest` down the spine, the mirror comes to the directory above `path`, and that does
      not have it. */
  predicate Misses(tree: Tree, host: Path, dest: Path, path: Path, created: seq<Path>)
    requires dest <= path
    decreases |path| - |dest|
  {
    && dest != path && Lists(tree, host, dest, created)
    && var names := Entries(tree, TargetOf(tree, host), dest);
       if |dest| + 1 == |path| then path[|dest|] !in names
       else
         && path[|dest|] in names
         && Misses(tree, TargetOf(tree, host) + [path[|dest|]], dest + [path[|dest|]], path, created)
  }

  /** The top of `path` is not listed in the host root. */
  predicate TopIsMissing(tree: Tree, host: Path, path: Path) {
    && path != [] && tree.directory(TargetOf(tree, host)) == Some(true)
    && path[0] !in Entries(tree, TargetOf(tree, host), [])
  }

  lemma {:induction false} MissingIff(dest: Path, names: seq<string>, created: seq<Path>, path: Path)
    ensures Dir(path) in Missing(dest, names, created) <==>
              path in created && path != [] && path[..|path| - 1] == dest && path[|path| - 1] !in names
  {
    if created != [] {
      MissingIff(dest, names, created[1..], path);
      assert created == [created[0]] + created[1..];
    }
  }

  lemma {:induction false} MissingTopIff(names: seq<string>, created: seq<Path>, path: Path)
    ensures Dir(path) in MissingTop(names, created) <==> path in created && path != [] && path[0] !in names
  {
    if created != [] {
      MissingTopIff(names, created[1..], path);
      assert created == [created[0]] + created[1..];
    }
  }

  /** Directories are created only on the spine, at or below the destination of the call. */
  ghost predicate OnSpineOnly(args: seq<Arg>, dest: Path, created: seq<Path>) {
    forall a | a in args && a.Dir? :: dest <= a.dest && a.dest != [] && OnSpine(a.dest, created)
  }

  lemma {:induction false} DirsOnSpine(tree: Tree, host: Path, dest: Path, created: seq<Path>)
    ensures var r := MirrorOf(tree, host, dest, created);
            r.Some? ==> OnSpineOnly(r.value, dest, created)
    decreases Room(dest, created), 1, 0
  {
    if Lists(tree, host, dest, created) {
      var names := Entries(tree, TargetOf(tree, host), dest);
      ChildrenOnSpine(tree, TargetOf(tree, host), dest, names, created);
      forall path
        ensures Dir(path) in Missing(dest, names, created) ==> dest <= path && path != [] && OnSpine(path, created)
        ensures Dir(path) in MissingTop(names, created) ==> path != [] && OnSpine(path, created)
      {
        MissingIff(dest, names, created, path);
        MissingTopIff(names, created, path);
        if path in created {
          var k :| 0 <= k < |created| && created[k] == path;
          assert OnSpine(path, created);
        }
      }
    }
  }

  lemma {:induction false} ChildrenOnSpine(
    tree: Tree, target: Path, dest: Path, names: seq<string>, created: seq<Path>)
    requires Rebuilt(dest, created)
    ensures OnSpineOnly(ChildrenOf(tree, target, dest, names, created), dest, created)
    decreases Room(dest, created), 0, |names|
  {
    if names != [] {
      var last := names[|names| - 1];
      ChildrenOnSpine(tree, target, dest, names[..|names| - 1], created);
      DirsOnSpine(tree, target + [last], dest + [last], created);
    }
  }

  /** Exactly which directories one call creates. */
  lemma {:induction false} DirIff(tree: Tree, host: Path, dest: Path, path: Path, created: seq<Path>)
    requires dest <= path && path != []
    ensures var r := MirrorOf(tree, host, dest, created);
            && (r.None? ==> !Visits(tree, host, dest, path, created) && !Misses(tree, host, dest, path, created))
            && (r.Some? ==>
                  (Dir(path) in r.value <==>
                     || Visits(tree, host, dest, path, created)
                     || (path in created && Misses(tree, host, dest, path, created))
                     || (path in created && dest == [] && TopIsMissing(tree, host, path))))
    decreases Room(dest, created), 1, 0
  {
    if Lists(tree, host, dest, created) {
      var target := TargetOf(tree, host);
      var names := Entries(tree, target, dest);
      ChildrenDirIff(tree, target, dest, names, path, created);
      DirOfListing(tree, host, dest, path, created);
      VisitsOneStep(tree, host, dest, path, created);
    }
  }

  /** The directories of a call that lists its children. */
  lemma DirOfListing(tree: Tree, host: Path, dest: Path, path: Path, created: seq<Path>)
    requires dest <= path && path != [] && Lists(tree, host, dest, created)
    ensures var r, names := MirrorOf(tree, host, dest, created), Entries(tree, TargetOf(tree, host), dest);
            && r.Some?
            && (Dir(path) in r.value <==>
                  || path == dest
                  || Dir(path) in ChildrenOf(tree, TargetOf(tree, host), dest, names, created)
                  || (path in created && |path| == |dest| + 1 && path[|dest|] !in names)
                  || (path in created && dest == [] && path[0] !in names))
  {
    hide ChildrenOf, Missing, MissingTop, Entries;
    var names := Entries(tree, TargetOf(tree, host), dest);
    MissingIff(dest, names, created, path);
    MissingTopIff(names, created, path);
    assert |path| == |dest| + 1 ==> path[..|path| - 1] == dest;
  }

  lemma VisitsOneStep(tree: Tree, host: Path, dest: Path, path: Path, created: seq<Path>)
    requires dest <= path && Lists(tree, host, dest, created)
    ensures dest == path ==> Visits(tree, host, dest, path, created) && !Misses(tree, host, dest, path, created)
    ensures dest != path ==>
              var name, names := path[|dest|], Entries(tree, TargetOf(tree, host), dest);
              && (Visits(tree, host, dest, path, created) <==>
                    name in names && Visits(tree, TargetOf(tree, host) + [name], dest + [name], path, created))
              && (Misses(tree, host, dest, path, created) <==>
                    if name in names
                    then Misses(tree, TargetOf(tree, host) + [name], dest + [name], path, created)
                    else |dest| + 1 == |path|)
  {
    if |dest| + 1 == |path| {
      assert dest + [path[|dest|]] == path;
    }
  }

  lemma {:induction false} ChildrenDirIff(
    tree: Tree, target: Path, dest: Path, names: seq<string>, path: Path, created: seq<Path>)
    requires Rebuilt(dest, created) && dest <= path && path != []
    ensures Dir(path) in ChildrenOf(tree, target, dest, names, created) <==>
              && |dest| < |path| && path[|dest|] in names
              && var host, child := target + [path[|dest|]], dest + [path[|dest|]];
                 || Visits(tree, host, child, path, created)
                 || (path in created && Misses(tree, host, child, path, created))
    decreases Room(dest, created), 0, |names|
  {
    if names != [] {
      var last := names[|names| - 1];
      ChildrenDirIff(tree, target, dest, names[..|names| - 1], path, created);
      if |dest| < |path| && path[|dest|] == last {
        assert dest + [last] <= path;
        DirIff(tree, target + [last], dest + [last], path, created);
      } else {
        DirsOnSpine(tree, target + [last], dest + [last], created);
        assert !(dest + [last] <= path) by {
          assert |dest| < |path| ==> (dest + [last])[|dest|] != path[|dest|];
        }
      }
      assert names == names[..|names| - 1] + [last];
    }
  }

  /** Every directory above `path` is a plain readable directory, and lists the next but for `path`. */
  predicate PlainAbove(tree: Tree, path: Path) {
    forall k | 0 <= k < |path| ::
      && !tree.symlink(path[..k])
      && tree.directory(path[..k]) == Some(true)
      && (k + 1 < |path| ==> tree.names(path[..k]).Some? && path[k] in tree.names(path[..k]).value)
  }

  /** The promise about the spine: a path that the sandbox adds, and every directory above it, is created
      if the host directories above it are plainly readable.  A path that the host has must be one whose
      kind can be told. */
  lemma SpineIsCreated(tree: Tree, path: Path, created: seq<Path>)
    requires path in created && path != [] && path[0] !in ["proc", "dev"]
    requires PlainAbove(tree, path) && tree.directory(TargetOf(tree, path)).Some?
    ensures MirrorOf(tree, [], [], created).Some?
    ensures forall j | 0 < j <= |path| :: Dir(path[..j]) in MirrorOf(tree, [], [], created).value
  {
    forall j | 0 < j <= |path| {
      AncestorIsCreated(tree, path, j, created);
    }
    AncestorIsCreated(tree, path, |path|, created);
  }

  lemma AncestorIsCreated(tree: Tree, path: Path, j: nat, created: seq<Path>)
    requires path in created && 0 < j <= |path| && path[0] !in ["proc", "dev"]
    requires PlainAbove(tree, path) && tree.directory(TargetOf(tree, path)).Some?
    ensures MirrorOf(tree, [], [], created).Some? && Dir(path[..j]) in MirrorOf(tree, [], [], created).value
  {
    hide MirrorOf, Visits, Misses, PlainAbove;
    assert path[..0] == [] && path[..|path|] == path;
    ReachesSpine(tree, path, j, 0, created);
    DirIff(tree, [], [], path[..j], created);
  }

  lemma {:induction false} ReachesSpine(tree: Tree, path: Path, j: nat, at: nat, created: seq<Path>)
    requires at < j <= |path| && path in created && path[0] !in ["proc", "dev"]
    requires PlainAbove(tree, path) && tree.directory(TargetOf(tree, path)).Some?
    ensures path[..at] <= path[..j]
    ensures Visits(tree, path[..at], path[..at], path[..j], created)
            || (j == |path| && Misses(tree, path[..at], path[..at], path, created))
    decreases j - at
  {
    var dest, whole := path[..at], path[..j];
    PrefixOnSpine(path, at, created);
    PrefixOnSpine(path, at + 1, created);
    assert dest + [path[at]] == path[..at + 1] && whole[at] == path[at];
    assert path[..|path|] == path;
    if at + 1 < j {
      ReachesSpine(tree, path, j, at + 1, created);
    }
    if at + 1 < |path| {
      assert tree.directory(TargetOf(tree, path[..at + 1])) == Some(true);
    }
    VisitsOneStep(tree, dest, dest, whole, created);
  }

  lemma PrefixOnSpine(path: Path, k: nat, created: seq<Path>)
    requires path in created && k <= |path|
    ensures OnSpine(path[..k], created)
  {
    var c :| 0 <= c < |created| && created[c] == path;
    assert path[..k] <= created[c];
  }
}
