/** A host file system with symbolic links, and the proof that it obeys the laws of resolution. */
module Hosts {
  import opened Paths
  import opened Mounts

  /** Where each symbolic link leads once it is followed, by its own resolved place. */
  type Links = map<Path, Path>

  /** A path that resolution leaves alone: proper names, and no link on the way. */
  predicate Clean(links: Links, path: Path) {
    && WellNamed(path) && ".." !in path
    && forall k | 0 <= k <= |path| :: path[..k] !in links
  }

  ghost predicate Followed(links: Links) {
    [] !in links && forall p | p in links :: Clean(links, links[p])
  }

  function Step(links: Links, at: Path, name: string): Path {
    if name == ".." then if at == [] then [] else at[..|at| - 1]
    else if !IsName(name) then at
    else if at + [name] in links then links[at + [name]]
    else at + [name]
  }

  /** `Path.resolve`, component by component. */
  function Walk(links: Links, path: Path): Path {
    if path == [] then [] else Step(links, Walk(links, path[..|path| - 1]), path[|path| - 1])
  }

  /** `Path.is_symlink`: the parent is followed, the last component is not. */
  predicate IsLink(links: Links, path: Path) {
    && path != [] && IsName(path[|path| - 1]) && path[|path| - 1] != ".."
    && Walk(links, path[..|path| - 1]) + [path[|path| - 1]] in links
  }

  /** The rest of a host with these links. */
  function Linked(host: Host, links: Links): Host {
    host.(resolve := p => Walk(links, p), symlink := p => IsLink(links, p))
  }

  lemma StepIsClean(links: Links, at: Path, name: string)
    requires Followed(links) && Clean(links, at)
    ensures Clean(links, Step(links, at, name))
  {
    if name == ".." && at != [] {
      var up := at[..|at| - 1];
      assert forall k | 0 <= k <= |up| :: up[..k] == at[..k];
    } else if name != ".." && IsName(name) && at + [name] !in links {
      var down := at + [name];
      assert forall k | 0 <= k <= |at| :: down[..k] == at[..k];
      assert down[..|down|] == down;
    }
  }

  lemma {:induction false} WalkIsClean(links: Links, path: Path)
    requires Followed(links)
    ensures Clean(links, Walk(links, path))
  {
    if path != [] {
      WalkIsClean(links, path[..|path| - 1]);
      StepIsClean(links, Walk(links, path[..|path| - 1]), path[|path| - 1]);
    }
  }

  lemma CleanPrefix(links: Links, path: Path, n: nat)
    requires Clean(links, path) && n <= |path|
    ensures Clean(links, path[..n])
  {
    assert forall k | 0 <= k <= n :: path[..n][..k] == path[..k];
  }

  lemma {:induction false} WalkOfClean(links: Links, path: Path)
    requires Clean(links, path)
    ensures Walk(links, path) == path
  {
    if path != [] {
      var last := |path| - 1;
      CleanPrefix(links, path, last);
      WalkOfClean(links, path[..last]);
      assert path == path[..last] + [path[last]];
      assert path[..|path|] == path;
    }
  }

  lemma {:induction false} WalkThrough(links: Links, p: Path, q: Path)
    requires Followed(links)
    ensures Walk(links, Walk(links, p) + q) == Walk(links, p + q)
  {
    if q == [] {
      WalkIsClean(links, p);
      WalkOfClean(links, Walk(links, p));
      assert Walk(links, p) + [] == Walk(links, p) && p + [] == p;
    } else {
      var last := |q| - 1;
      WalkThrough(links, p, q[..last]);
      assert (p + q)[..|p + q| - 1] == p + q[..last];
      assert (Walk(links, p) + q)[..|Walk(links, p) + q| - 1] == Walk(links, p) + q[..last];
    }
  }

  lemma CleanIsNoLink(links: Links, path: Path)
    requires Clean(links, path)
    ensures !IsLink(links, path)
  {
    if path != [] {
      var last := |path| - 1;
      CleanPrefix(links, path, last);
      WalkOfClean(links, path[..last]);
      assert path == path[..last] + [path[last]];
      assert path[..|path|] == path;
    }
  }

  /** Every host with followed links obeys all the laws, ".." and link chains included. */
  lemma LinkedIsLawful(host: Host, links: Links)
    requires Followed(links)
    ensures Lawful(Linked(host, links))
  {
    var linked := Linked(host, links);
    forall p, q
      ensures ResolvesThrough(linked, p, q) && PrefixResolved(linked, p, q)
    {
      WalkThrough(links, p, q);
      WalkIsClean(links, p + q);
      if Walk(links, p + q) == p + q {
        assert (p + q)[..|p|] == p;
        CleanPrefix(links, p + q, |p|);
        WalkOfClean(links, p);
      }
    }
    forall p
      ensures ProperlyResolved(linked, p)
    {
      WalkIsClean(links, p);
      if Walk(links, p) == p {
        CleanIsNoLink(links, p);
      }
    }
    forall p, name
      ensures StaysPut(linked, p, name)
    {
      assert (p + [name])[..|p|] == p;
    }
  }
}
