/** Longest-prefix routing of virtual paths, and the proof that it refines the mount order. */
module Routing {
  import opened Paths
  import opened Results
  import opened Mounts

  ghost predicate NamedStack(mounts: seq<Mount>) {
    forall k | 0 <= k < |mounts| :: WellNamed(mounts[k].destination)
  }

  predicate Rooted(text: string) {
    text != "" && text[0] == '/'
  }

  /** The key a mount is registered under: its virtual path and a slash. */
  function RouteKey(mount: Mount): string {
    Posix(mount.destination) + "/"
  }

  /** The composite backend's test of one route. */
  predicate Routes(mount: Mount, text: string) {
    text == StripSlashes(RouteKey(mount)) || RouteKey(mount) <= text
  }

  /** What is left of the path for the routed backend. */
  function BackendKey(mount: Mount, text: string): (key: string)
    requires Routes(mount, text)
    ensures Rooted(key)
  {
    if text == StripSlashes(RouteKey(mount)) then "/" else "/" + text[|RouteKey(mount)|..]
  }

  function InsertByKey(mount: Mount, sorted: seq<Mount>): (r: seq<Mount>)
    ensures multiset(r) == multiset{mount} + multiset(sorted)
  {
    if sorted == [] || |RouteKey(sorted[0])| <= |RouteKey(mount)| then [mount] + sorted
    else
      assert sorted == [sorted[0]] + sorted[1..];
      [sorted[0]] + InsertByKey(mount, sorted[1..])
  }

  lemma {:induction false} InsertKeepsOrder(mount: Mount, sorted: seq<Mount>)
    requires LongestFirst(sorted)
    ensures LongestFirst(InsertByKey(mount, sorted))
    ensures var r := InsertByKey(mount, sorted); r != [] && (r[0] == mount || (sorted != [] && r[0] == sorted[0]))
  {
    hide RouteKey;
    if sorted != [] && |RouteKey(sorted[0])| > |RouteKey(mount)| {
      InsertKeepsOrder(mount, sorted[1..]);
      FrontKeepsOrder(sorted[0], InsertByKey(mount, sorted[1..]));
    } else {
      FrontKeepsOrder(mount, sorted);
    }
  }

  lemma FrontKeepsOrder(front: Mount, rest: seq<Mount>)
    requires LongestFirst(rest) && (rest != [] ==> |RouteKey(rest[0])| <= |RouteKey(front)|)
    ensures LongestFirst([front] + rest)
  {
    hide RouteKey;
    var all := [front] + rest;
    forall i, j | 0 <= i < j < |all|
      ensures |RouteKey(all[j])| <= |RouteKey(all[i])|
    {
      assert all[j] == rest[j - 1];
      assert i > 0 ==> all[i] == rest[i - 1];
    }
  }

  predicate LongestFirst(sorted: seq<Mount>) {
    forall i, j | 0 <= i < j < |sorted| :: |RouteKey(sorted[j])| <= |RouteKey(sorted[i])|
  }

  /** `sorted(routes, key=len, reverse=True)` */
  function SortedRoutes(mounts: seq<Mount>): (sorted: seq<Mount>)
    ensures LongestFirst(sorted)
    ensures multiset(sorted) == multiset(mounts)
  {
    if mounts == [] then [] else
      assert mounts == [mounts[0]] + mounts[1..];
      InsertKeepsOrder(mounts[0], SortedRoutes(mounts[1..]));
      InsertByKey(mounts[0], SortedRoutes(mounts[1..]))
  }

  /** The first registered route that matches. */
  function Lookup(sorted: seq<Mount>, text: string): (r: Option<Mount>)
    ensures r.None? ==> forall k | 0 <= k < |sorted| :: !Routes(sorted[k], text)
    ensures r.Some? ==> r.value in sorted && Routes(r.value, text)
    ensures r.Some? && LongestFirst(sorted) ==>
              forall k | 0 <= k < |sorted| && Routes(sorted[k], text) ::
                |RouteKey(sorted[k])| <= |RouteKey(r.value)|
  {
    if sorted == [] then None
    else if Routes(sorted[0], text) then Some(sorted[0])
    else Lookup(sorted[1..], text)
  }

  /** `_component_within` as the code computes it, on strings. */
  predicate ComponentWithin(text: string, root: string) {
    var normalized := if StripSlashes(text) == "" then "/" else StripSlashes(text);
    var base := if StripSlashes(root) == "" then "/" else StripSlashes(root);
    normalized == base || base + "/" <= normalized
  }

  predicate Reaches(mount: Mount, text: string) {
    ComponentWithin(text, Posix(mount.destination))
  }

  /** `_route_point`: the deepest mount whose virtual path contains `text`. */
  function RoutePoint(mounts: seq<Mount>, text: string): (best: int)
    ensures -1 <= best < |mounts|
    ensures best == -1 <==> forall k | 0 <= k < |mounts| :: !Reaches(mounts[k], text)
    ensures best >= 0 ==>
              && Reaches(mounts[best], text)
              && (forall k | 0 <= k < |mounts| && Reaches(mounts[k], text) ::
                    |mounts[k].destination| <= |mounts[best].destination|)
  {
    FirstHighest(mounts, m => Reaches(m, text), (m: Mount) => (|m.destination|, 0))
  }

  lemma StripUnique(text: string, core: string)
    requires core <= text
    requires core == "" || core[|core| - 1] != '/'
    requires forall k | |core| <= k < |text| :: text[k] == '/'
    ensures StripSlashes(text) == core
  {
    var stripped := StripSlashes(text);
    assert core != "" ==> text[|core| - 1] == core[|core| - 1];
    assert stripped != "" ==> stripped[|stripped| - 1] == text[|stripped| - 1];
    assert |stripped| == |core|;
    assert stripped == text[..|stripped|];
  }

  lemma StripText(path: Path)
    requires WellNamed(path)
    ensures StripSlashes(Text(path)) == StripSlashes(Text(path) + "/") == Text(path)
    ensures StripSlashes(Posix(path)) == Text(path)
  {
    if path != [] {
      TextEndsInName(path);
    }
    StripUnique(Text(path), Text(path));
    StripUnique(Text(path) + "/", Text(path));
    StripUnique(Posix(path), Text(path));
  }

  /** Dropping trailing slashes does not change which non-root texts contain a path. */
  lemma TextWithinStripped(text: string, root: string)
    requires root != "" && root[|root| - 1] != '/'
    ensures TextWithin(text, root) <==> TextWithin(StripSlashes(text), root)
  {
    var stripped := StripSlashes(text);
    assert stripped == text[..|stripped|];
    if TextWithin(text, root) {
      assert text[|root| - 1] == root[|root| - 1];
      assert |root| <= |stripped|;
      assert root == text[..|root|] == stripped[..|root|];
      if |root| < |stripped| {
        assert (root + "/") == text[..|root| + 1] == stripped[..|root| + 1];
      }
    }
    if TextWithin(stripped, root) && |stripped| < |text| {
      assert root + "/" == text[..|root| + 1];
    }
  }

  /** `_component_within` on strings is the component-prefix test for every root but "/";
      under "/" it only accepts "/" itself and paths that begin with two slashes. */
  lemma ComponentWithinIsPrefix(text: string, root: Path)
    requires Rooted(text) && WellNamed(root)
    ensures ComponentWithin(text, Posix(root)) <==>
            root <= Components(text) && (root != [] || StripSlashes(text) == "" || "//" <= StripSlashes(text))
  {
    var stripped := StripSlashes(text);
    StripText(root);
    if root != [] {
      TextEndsInName(root);
      TextWithinIsPrefix(stripped, root);
      if stripped == "" {
        assert !(Text(root) + "/" <= "/");
      }
    } else {
      assert "/" + "/" == "//";
    }
  }

  /** A route matches exactly the paths its mount covers, except that a mount at "/" is
      registered as "//" and matches only paths that begin with two slashes. */
  lemma RoutesIsCovers(mount: Mount, text: string)
    requires Rooted(text) && WellNamed(mount.destination)
    ensures Routes(mount, text) <==>
            Covers(mount, Components(text)) && (mount.destination != [] || "//" <= text)
  {
    var root := mount.destination;
    StripText(root);
    if root != [] {
      TextEndsInName(root);
      TextWithinStripped(text, Text(root));
      TextWithinIsPrefix(StripSlashes(text), root);
      assert Routes(mount, text) <==> TextWithin(text, Text(root));
    } else {
      assert RouteKey(mount) == "//";
      StripUnique("//", "");
    }
  }

  /** Whether bubblewrap's visible mount for `text` can be reached by a route. */
  predicate Routable(mounts: seq<Mount>, text: string)
    requires Rooted(text)
  {
    var top := LastApplied(mounts, Components(text));
    top == -1 || mounts[top].destination != [] || "//" <= text
  }

  function Visible(mounts: seq<Mount>, text: string): Option<Mount>
    requires Rooted(text)
  {
    var top := LastApplied(mounts, Components(text));
    if top == -1 then None else Some(mounts[top])
  }

  /** The main routing theorem.  On every accepted stack and every virtual path the
      longest-prefix route is the mount that bubblewrap applied last over that path,
      unless that mount is one at "/" and the path does not begin with "//".  The checks of
      the configuration leave no mount at "/" (`Validation.ValidIsServed`). */
  lemma RoutingIsLastMountWins(host: Host, mounts: seq<Mount>, text: string)
    requires Stacked(host, mounts) && NamedStack(mounts) && Rooted(text)
    ensures Lookup(SortedRoutes(mounts), text) == Visible(mounts, text) <==> Routable(mounts, text)
  {
    var path := Components(text);
    var sorted := SortedRoutes(mounts);
    var top := LastApplied(mounts, path);
    var found := Lookup(sorted, text);
    forall mount | mount in mounts
      ensures Routes(mount, text) <==> Covers(mount, path) && (mount.destination != [] || "//" <= text)
    {
      RoutesIsCovers(mount, text);
    }
    SameMembers(mounts);
    if top >= 0 && Routable(mounts, text) {
      assert mounts[top] in mounts;
      RouteIsTop(host, mounts, text);
    }
  }

  lemma SameMembers(mounts: seq<Mount>)
    ensures forall m :: m in SortedRoutes(mounts) <==> m in mounts
  {
    forall m
      ensures m in SortedRoutes(mounts) <==> m in mounts
    {
      assert m in SortedRoutes(mounts) <==> m in multiset(SortedRoutes(mounts));
      assert m in mounts <==> m in multiset(mounts);
    }
  }

  /** A longest matching route is the deepest covering mount. */
  lemma RouteIsTop(host: Host, mounts: seq<Mount>, text: string)
    requires Stacked(host, mounts) && NamedStack(mounts) && Rooted(text)
    requires var top := LastApplied(mounts, Components(text));
             top >= 0 && Routes(mounts[top], text)
    ensures Lookup(SortedRoutes(mounts), text) == Visible(mounts, text)
  {
    var path := Components(text);
    var sorted := SortedRoutes(mounts);
    var top := LastApplied(mounts, path);
    SameMembers(mounts);
    assert mounts[top] in sorted;
    var found := Lookup(sorted, text).value;
    var k :| 0 <= k < |mounts| && mounts[k] == found;
    RoutesIsCovers(found, text);
    var t :| 0 <= t < |sorted| && sorted[t] == mounts[top];
    assert |RouteKey(sorted[t])| <= |RouteKey(found)|;
    if k != top {
      CoveringOrder(host, mounts, path, k, top);
      TextLengthOrders(mounts[k].destination, mounts[top].destination);
      assert false;
    }
  }

  predicate RootFree(mounts: seq<Mount>) {
    forall k | 0 <= k < |mounts| :: mounts[k].destination != []
  }

  /** Without a mount at "/", all three ways of finding the mount of a path agree. */
  lemma RoutePointIsRoute(host: Host, mounts: seq<Mount>, text: string)
    requires Stacked(host, mounts) && NamedStack(mounts) && RootFree(mounts) && Rooted(text)
    ensures RoutePoint(mounts, text) == LastApplied(mounts, Components(text))
    ensures Lookup(SortedRoutes(mounts), text) == Visible(mounts, text)
  {
    var path := Components(text);
    forall k | 0 <= k < |mounts|
      ensures Reaches(mounts[k], text) <==> Covers(mounts[k], path)
    {
      ComponentWithinIsPrefix(text, mounts[k].destination);
    }
    RoutingIsLastMountWins(host, mounts, text);
    var best := RoutePoint(mounts, text);
    if best >= 0 {
      DeepestIsUnique(host, mounts, path, best);
    }
  }
}
